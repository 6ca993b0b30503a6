/** pipedput/utils.py: the API base URL of an event's GitLab instance, the
    configuration checks (raise, or only warn) that hooks run before calling
    external tools, and the template renderer whose captured defaults every
    call updates. */
module Utils {
  import opened Common
  import opened Gitlab

  /** `scheme://netloc/api/v4` of the project's web URL. */
  function ApiBaseUrl(u: WebUrl): (r: string)
    ensures StartsWith(r, u.scheme + "://")
    ensures EndsWith(r, "/api/v4")
    ensures |r| == |u.scheme| + |u.netloc| + 10
  {
    u.scheme + "://" + u.netloc + "/api/v4"
  }

  /** A URL scheme never holds a ':'; under that reading the base URL
      determines the scheme and the network location it was built from. */
  lemma ApiBaseUrlInjective(u1: WebUrl, u2: WebUrl)
    requires ':' !in u1.scheme && ':' !in u2.scheme
    requires ApiBaseUrl(u1) == ApiBaseUrl(u2)
    ensures u1 == u2
  {
    var t1, t2 := Tail(u1.netloc), Tail(u2.netloc);
    SchemeThenTail(u1);
    SchemeThenTail(u2);
    ColonAfter(u1.scheme, t1);
    ColonAfter(u2.scheme, t2);
    SamePrefix(u1.scheme, t1, u2.scheme, t2);
    assert t1[3..|t1| - 7] == u1.netloc;
    assert t2[3..|t2| - 7] == u2.netloc;
  }

  /** What follows the scheme in the base URL. */
  function Tail(netloc: string): (t: string)
    ensures |t| == |netloc| + 10 && t[0] == ':' && t[3..|t| - 7] == netloc
  {
    "://" + netloc + "/api/v4"
  }

  lemma SchemeThenTail(u: WebUrl)
    ensures ApiBaseUrl(u) == u.scheme + Tail(u.netloc)
  {
  }

  /** Two splits of one string at the same position agree on both parts. */
  lemma SamePrefix(s1: string, t1: string, s2: string, t2: string)
    requires s1 + t1 == s2 + t2 && |s1| == |s2|
    ensures s1 == s2 && t1 == t2
  {
    assert s1 == (s1 + t1)[..|s1|];
    assert s2 == (s2 + t2)[..|s2|];
    assert t1 == (s1 + t1)[|s1|..];
    assert t2 == (s2 + t2)[|s2|..];
  }

  /** The position of the first ':' in a string (its length if none). */
  function FirstColon(s: string): (i: nat)
    ensures i <= |s|
  {
    if s == [] || s[0] == ':' then 0 else 1 + FirstColon(s[1..])
  }

  /** A colon-free prefix followed by a ':' puts the first ':' right after
      the prefix. */
  lemma {:induction false} ColonAfter(s: string, t: string)
    requires ':' !in s && |t| > 0 && t[0] == ':'
    ensures FirstColon(s + t) == |s|
  {
    if s != [] {
      assert (s + t)[1..] == s[1..] + t;
      ColonAfter(s[1..], t);
    }
  }

  /** One configuration requirement: whether it is violated, and the message
      reported when it is. */
  datatype Requirement = Requirement(violated: bool, message: string)

  /** `Configuration.assert_false`: the condition is passed on unchanged. */
  function AssertFalse(condition: bool, message: string): (q: Requirement)
    ensures q.violated == condition && q.message == message
  {
    Requirement(condition, message)
  }

  /** `Configuration.check_bin_exists`, `found` being whether `shutil.which`
      found the binary. */
  function BinExists(binName: string, found: bool): (q: Requirement)
    ensures q.violated <==> !found
    ensures StartsWith(q.message, "Could not find '" + binName + "'")
  {
    var m := "Could not find '" + binName + "' binary on PATH, but it is required. "
      + "Did you forget to install it on the system?";
    assert m == ("Could not find '" + binName + "'") + m[|"Could not find '" + binName + "'"|..];
    Requirement(!found, m)
  }

  /** `Configuration.check_file_exists`, `present` being `os.path.exists`. */
  function FileExists(filePath: string, present: bool): (q: Requirement)
    ensures q.violated <==> !present
    ensures StartsWith(q.message, "The file '" + filePath + "'")
  {
    var m := "The file '" + filePath + "' was specified in the configuration but "
      + "does not exist.";
    assert m == ("The file '" + filePath + "'") + m[|"The file '" + filePath + "'"|..];
    Requirement(!present, m)
  }

  /** `Configuration._check`: a requirement that holds does nothing; a
      violated one is logged as a warning under `warnOnly` and raises
      ConfigurationError with its message otherwise. The result is the list
      of warnings logged, or the exception. */
  function Enforce(q: Requirement, warnOnly: bool): (r: Result<seq<string>>)
    ensures !q.violated ==> r == Ok([])
    ensures q.violated && warnOnly ==> r == Ok([q.message])
    ensures q.violated && !warnOnly ==> r == Err(ConfigurationError(q.message))
  {
    if !q.violated then Ok([])
    else if warnOnly then Ok([q.message])
    else Err(ConfigurationError(q.message))
  }

  /** Several checks run one after the other, as a hook's
      `check_prerequisites` does: warnings accumulate, the first exception
      ends the run. */
  function EnforceAll(qs: seq<Requirement>, warnOnly: bool): Result<seq<string>> {
    if qs == [] then Ok([])
    else
      match Enforce(qs[0], warnOnly)
      case Err(x) => Err(x)
      case Ok(w) =>
        (match EnforceAll(qs[1..], warnOnly)
         case Err(x) => Err(x)
         case Ok(ws) => Ok(w + ws))
  }

  /** The messages of the violated requirements, in order. */
  function Violations(qs: seq<Requirement>): seq<string> {
    if qs == [] then []
    else (if qs[0].violated then [qs[0].message] else []) + Violations(qs[1..])
  }

  /** In warn-only mode the checks never raise and log one warning per
      violated requirement, in order; otherwise they raise exactly when some
      requirement is violated, with the first violated one's message, and
      log nothing. */
  lemma {:induction false} EnforceAllOutcome(qs: seq<Requirement>)
    ensures EnforceAll(qs, true) == Ok(Violations(qs))
    ensures EnforceAll(qs, false).Err? <==> Violations(qs) != []
    ensures Violations(qs) != [] ==>
      EnforceAll(qs, false) == Err(ConfigurationError(Violations(qs)[0]))
    ensures Violations(qs) == [] ==> EnforceAll(qs, false) == Ok([])
  {
    if qs != [] {
      EnforceAllOutcome(qs[1..]);
    }
  }

  /** A rendered template: its name and the context it was rendered with. */
  datatype Rendering<V> = Rendering(template: string, context: map<string, V>)

  /** The closure `create_template_renderer` returns. Its defaults are the
      keyword arguments captured at creation; every call updates them in
      place with the call's own keyword arguments and renders with the
      result, so keys given to one call persist into later calls. */
  class TemplateRenderer<V> {
    const template: string
    var defaults: map<string, V>

    constructor (template: string, defaults: map<string, V>)
      ensures this.template == template && this.defaults == defaults
    {
      this.template := template;
      this.defaults := defaults;
    }

    method Render(context: map<string, V>) returns (r: Rendering<V>)
      modifies this
      ensures defaults == old(defaults) + context
      ensures r == Rendering(template, defaults)
    {
      defaults := defaults + context;
      r := Rendering(template, defaults);
    }
  }

  /** Two calls in a row: the second rendering holds every key of the first
      call that the second does not override, with the first call's value,
      and the call's own keys win over the defaults. */
  method RenderTwice<V>(renderer: TemplateRenderer<V>, first: map<string, V>, second: map<string, V>)
    returns (r1: Rendering<V>, r2: Rendering<V>)
    modifies renderer
    ensures r2.context == old(renderer.defaults) + first + second
    ensures forall k :: k in first && k !in second ==> k in r2.context && r2.context[k] == first[k]
    ensures forall k :: k in second ==> k in r2.context && r2.context[k] == second[k]
  {
    r1 := renderer.Render(first);
    r2 := renderer.Render(second);
  }
}
