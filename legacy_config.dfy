/** The older project configuration of pipedput/config.py. A ProjectConfig
    holds a list of constraints, all of which must hold for an event to be
    processed, and a list of listeners. Processing yields one payload per
    change that the artifact processor reports for each artifact, and fires
    the listeners with the publish event before yielding it. The artifact
    URL lister and the artifact processor it imports are not defined in the
    repository: they are parameters here. */
module LegacyConfig {
  import opened Common
  import opened Gitlab
  import Constraints

  /** `EventProcessEvent` */
  datatype EventKind = OnPublish

  /** The payload dict built for each processed change. */
  datatype Payload = Payload(project: string, source: Event, artifactUrl: string, change: string,
                             wasSuccessful: bool)

  /** Which callable a listener was registered with. Callables are not
      values here, so each registered callback is named by an identifier. */
  type CallbackId = nat

  /** The wrapper `on` registers: it passes the payload to `callback` when
      it fires. */
  datatype Listener = Listener(callback: CallbackId, onlyEvent: Option<EventKind>)

  /** The `_callback` wrapper: it calls the callback, with the payload,
      exactly when it listens to every event or to this one. */
  function Deliver(l: Listener, kind: EventKind, payload: Payload): (call: Option<(CallbackId, Payload)>)
    ensures call.Some? <==> l.onlyEvent.None? || l.onlyEvent == Some(kind)
    ensures call.Some? ==> call.value == (l.callback, payload)
  {
    if l.onlyEvent.None? || l.onlyEvent == Some(kind) then Some((l.callback, payload)) else None
  }

  /** `[constraint(event) for constraint in constraints]`: every constraint
      in order; the first exception ends the list comprehension. */
  function EvalAll(cs: seq<Event -> Result<bool>>, e: Event): Result<seq<bool>>
    decreases |cs|
  {
    if cs == [] then Ok([])
    else
      match cs[0](e)
      case Err(x) => Err(x)
      case Ok(b) =>
        (match EvalAll(cs[1..], e)
         case Err(x) => Err(x)
         case Ok(bs) => Ok([b] + bs))
  }

  /** `all(...)` of the evaluated list. */
  function ShouldProcessSpec(cs: seq<Event -> Result<bool>>, e: Event): Result<bool> {
    match EvalAll(cs, e)
    case Err(x) => Err(x)
    case Ok(bs) => Ok(forall i :: 0 <= i < |bs| ==> bs[i])
  }

  /** The number of constraints `should_process` calls: all of them unless
      one raises, which is then the last called. */
  function Evaluated(cs: seq<Event -> Result<bool>>, e: Event): (n: nat)
    ensures n <= |cs|
    decreases |cs|
  {
    if cs == [] then 0 else if cs[0](e).Err? then 1 else 1 + Evaluated(cs[1..], e)
  }

  /** `should_process` is true exactly when every constraint returns true
      (so with none it is true), false when all return normally and one
      returns false, and raises the first exception a constraint raises.
      Unlike `&` it does not stop at a false constraint: when none raises
      every constraint is called. */
  lemma {:induction false} ShouldProcessSpecHolds(cs: seq<Event -> Result<bool>>, e: Event)
    ensures ShouldProcessSpec(cs, e) == Ok(true) <==> forall i :: 0 <= i < |cs| ==> cs[i](e) == Ok(true)
    ensures ShouldProcessSpec(cs, e).Err? <==> exists i :: 0 <= i < |cs| && cs[i](e).Err?
    ensures ShouldProcessSpec(cs, e).Err? ==>
      var k := Evaluated(cs, e) - 1;
      0 <= k < |cs| && cs[k](e).Err? && ShouldProcessSpec(cs, e).error == cs[k](e).error
      && forall j :: 0 <= j < k ==> cs[j](e).Ok?
    ensures (forall i :: 0 <= i < |cs| ==> cs[i](e).Ok?) ==> Evaluated(cs, e) == |cs|
    decreases |cs|
  {
    if cs != [] {
      var rest := cs[1..];
      ShouldProcessSpecHolds(rest, e);
      assert forall i :: 0 <= i < |rest| ==> rest[i] == cs[i + 1];
      match EvalAll(rest, e)
      case Err(_) =>
      case Ok(bs) =>
        if cs[0](e).Ok? {
          var all := [cs[0](e).value] + bs;
          assert forall i :: 0 <= i < |bs| ==> all[i + 1] == bs[i];
          assert (forall i :: 0 <= i < |all| ==> all[i]) <==> all[0] && forall i :: 0 <= i < |bs| ==> bs[i];
          assert (forall i :: 0 <= i < |cs| ==> cs[i](e) == Ok(true))
            <==> cs[0](e) == Ok(true) && forall i :: 0 <= i < |rest| ==> rest[i](e) == Ok(true);
        }
    }
  }

  /** The contrast with the short-circuit `&` of the constraint algebra: a
      first constraint that is false and a second that raises make
      `should_process` raise, while their conjunction is simply false. */
  lemma ShouldProcessIsNotShortCircuit(p: Event -> Result<bool>, q: Event -> Result<bool>, e: Event)
    requires p(e) == Ok(false) && q(e).Err?
    ensures ShouldProcessSpec([p, q], e) == Err(q(e).error)
    ensures Constraints.Eval(Constraints.And(Constraints.Atom(Constraints.DefaultCallback(p)),
                                             Constraints.Atom(Constraints.DefaultCallback(q))), e) == Ok(false)
  {
    assert [p, q][1..] == [q];
    assert [q][1..] == [];
    assert EvalAll([q], e) == Err(q(e).error);
  }

  /** The payloads of one artifact, one per reported change. */
  function ArtifactPayloads(name: string, e: Event, url: string, changes: seq<(string, bool)>): (ps: seq<Payload>)
    ensures |ps| == |changes|
    ensures forall j :: 0 <= j < |changes| ==> ps[j] == Payload(name, e, url, changes[j].0, changes[j].1)
  {
    seq(|changes|, j requires 0 <= j < |changes| => Payload(name, e, url, changes[j].0, changes[j].1))
  }

  /** The payloads of all artifacts, in artifact order. */
  function Payloads(name: string, e: Event, urls: seq<string>,
                    changesOf: string -> seq<(string, bool)>): seq<Payload>
    decreases |urls|
  {
    if urls == [] then []
    else
      var last := urls[|urls| - 1];
      Payloads(name, e, urls[..|urls| - 1], changesOf) + ArtifactPayloads(name, e, last, changesOf(last))
  }

  /** A legacy project configuration. */
  class ProjectConfig {
    const projectName: string
    const dputConfig: string
    const token: Option<string>
    const artifactToken: Option<string>
    var constraints: seq<Event -> Result<bool>>
    var hooks: seq<Listener>

    constructor (name: string, dputConfig: string, token: Option<string>, artifactToken: Option<string>)
      ensures projectName == name && this.dputConfig == dputConfig
      ensures this.token == token && this.artifactToken == artifactToken
      ensures constraints == [] && hooks == []
    {
      projectName := name;
      this.dputConfig := dputConfig;
      this.token := token;
      this.artifactToken := artifactToken;
      constraints := [];
      hooks := [];
    }

    /** `add_constraint(*constraints)`: appends them one by one, in order,
        and returns the configuration itself. */
    method AddConstraint(cs: seq<Event -> Result<bool>>) returns (self: ProjectConfig)
      modifies this
      ensures constraints == old(constraints) + cs
      ensures hooks == old(hooks)
      ensures self == this
    {
      var i := 0;
      while i < |cs|
        invariant 0 <= i <= |cs|
        invariant constraints == old(constraints) + cs[..i]
        invariant hooks == old(hooks)
      {
        assert cs[..i + 1] == cs[..i] + [cs[i]];
        constraints := constraints + [cs[i]];
        i := i + 1;
      }
      assert cs[..i] == cs;
      self := this;
    }

    /** `on(callback, only_event)`: registers one more listener (and, unlike
        `add_constraint`, returns nothing). */
    method On(callback: CallbackId, onlyEvent: Option<EventKind>)
      modifies this
      ensures hooks == old(hooks) + [Listener(callback, onlyEvent)]
      ensures constraints == old(constraints)
    {
      hooks := hooks + [Listener(callback, onlyEvent)];
    }

    /** `should_process(event)`: the constraints' results collected into a
        list first, then `all` of the list. */
    method ShouldProcess(e: Event) returns (r: Result<bool>)
      ensures r == ShouldProcessSpec(constraints, e)
    {
      var results: seq<bool> := [];
      var i := 0;
      assert constraints[0..] == constraints;
      match EvalAll(constraints, e) {
        case Err(_) =>
        case Ok(bs) => assert [] + bs == bs;
      }
      while i < |constraints|
        invariant 0 <= i <= |constraints|
        invariant EvalAll(constraints, e) == (match EvalAll(constraints[i..], e)
                                              case Err(x) => Err(x)
                                              case Ok(bs) => Ok(results + bs))
      {
        var b := constraints[i](e);
        assert constraints[i..][1..] == constraints[i + 1..];
        if b.Err? {
          return Err(b.error);
        }
        match EvalAll(constraints[i + 1..], e) {
          case Err(_) =>
          case Ok(bs) =>
            assert results + ([b.value] + bs) == (results + [b.value]) + bs;
        }
        results := results + [b.value];
        i := i + 1;
      }
      var all := true;
      var j := 0;
      while j < |results|
        invariant 0 <= j <= |results|
        invariant all <==> forall k :: 0 <= k < j ==> results[k]
      {
        all := all && results[j];
        j := j + 1;
      }
      assert constraints[i..] == [];
      assert results + [] == results;
      assert EvalAll(constraints, e) == Ok(results);
      r := Ok(all);
    }

    /** `process(event)` run to its end, with the two imported helpers as
        parameters: nothing when the constraints do not all hold (their
        exception when one raises); otherwise, for each artifact URL in
        order and each change reported for it, the payload, fired to the
        listeners as a publish event before it is yielded. */
    method Process(e: Event, artifactUrls: Event -> seq<string>,
                   processArtifact: (string, string, Option<string>) -> seq<(string, bool)>)
      returns (r: Result<seq<Payload>>, fired: seq<(EventKind, Payload)>)
      ensures var changesOf := (url: string) => processArtifact(url, dputConfig, artifactToken);
        && (ShouldProcessSpec(constraints, e).Err? ==> r == Err(ShouldProcessSpec(constraints, e).error) && fired == [])
        && (ShouldProcessSpec(constraints, e) == Ok(false) ==> r == Ok([]) && fired == [])
        && (ShouldProcessSpec(constraints, e) == Ok(true) ==>
              && r == Ok(Payloads(projectName, e, artifactUrls(e), changesOf))
              && |fired| == |r.value|
              && forall k :: 0 <= k < |fired| ==> fired[k] == (OnPublish, r.value[k]))
    {
      ghost var changesOf := (url: string) => processArtifact(url, dputConfig, artifactToken);
      var go := ShouldProcess(e);
      fired := [];
      if go.Err? {
        return Err(go.error), [];
      }
      if !go.value {
        return Ok([]), [];
      }
      var urls := artifactUrls(e);
      var payloads: seq<Payload> := [];
      var i := 0;
      while i < |urls|
        invariant 0 <= i <= |urls|
        invariant payloads == Payloads(projectName, e, urls[..i], changesOf)
        invariant |fired| == |payloads|
        invariant forall k :: 0 <= k < |fired| ==> fired[k] == (OnPublish, payloads[k])
      {
        var artifact := urls[i];
        var changes := processArtifact(artifact, dputConfig, artifactToken);
        ghost var before := payloads;
        var j := 0;
        while j < |changes|
          invariant 0 <= j <= |changes|
          invariant payloads == before + ArtifactPayloads(projectName, e, artifact, changes[..j])
          invariant |fired| == |payloads|
          invariant forall k :: 0 <= k < |fired| ==> fired[k] == (OnPublish, payloads[k])
        {
          var payload := Payload(projectName, e, artifact, changes[j].0, changes[j].1);
          fired := fired + [(OnPublish, payload)];
          assert ArtifactPayloads(projectName, e, artifact, changes[..j + 1])
            == ArtifactPayloads(projectName, e, artifact, changes[..j]) + [payload];
          payloads := payloads + [payload];
          j := j + 1;
        }
        assert changes[..j] == changes;
        assert urls[..i + 1][..i] == urls[..i];
        i := i + 1;
      }
      assert urls[..i] == urls;
      r := Ok(payloads);
    }
  }
}
