/** Request admission of pipedput/app.py: the web hook endpoint looks the
    project up by the key in its URL, checks the GitLab token against the
    project's pipeline secret, checks that the payload is a pipeline event,
    and only then dispatches it; the checks answer 404, 403 and 400, in that
    order, and an accepted request is answered 200 whatever the dispatch
    does. */
module App {
  import opened Common
  import opened Gitlab
  import Handler

  /** The keys of the configured projects, in configuration order. */
  function Keys(projects: seq<Handler.Project>): (keys: seq<string>)
    ensures |keys| == |projects|
    ensures forall i :: 0 <= i < |projects| ==> keys[i] == projects[i].key
  {
    seq(|projects|, i requires 0 <= i < |projects| => projects[i].key)
  }

  /** `get_project_by_key`: the configured projects searched in order, the
      first with the key returned, `Project.DoesNotExist` raised when none
      has it. */
  method GetProjectByKey(projects: seq<Handler.Project>, key: string) returns (r: Result<Handler.Project>)
    ensures FirstIndex(Keys(projects), key).None? <==> r == Err(DoesNotExist)
    ensures r.Ok? ==> r.value == projects[FirstIndex(Keys(projects), key).value]
    ensures r.Ok? || r == Err(DoesNotExist)
  {
    var i := 0;
    while i < |projects|
      invariant 0 <= i <= |projects|
      invariant forall j :: 0 <= j < i ==> projects[j].key != key
    {
      if projects[i].key == key {
        FirstIndexUnique(Keys(projects), key, i);
        return Ok(projects[i]);
      }
      i := i + 1;
    }
    return Err(DoesNotExist);
  }

  /** `is_allowed`: a project without a secret admits every request; one
      with a secret only requests carrying exactly that token. */
  function IsAllowed(pipelineSecret: Option<string>, token: Option<string>): (r: bool)
    ensures pipelineSecret.None? ==> r
    ensures pipelineSecret.Some? ==> (r <==> token == pipelineSecret)
    ensures pipelineSecret.Some? && token.None? ==> !r
  {
    pipelineSecret.None? || pipelineSecret == token
  }

  /** The request's JSON body: an object, with its `object_kind` if it has
      one and the pipeline event it describes, or any other JSON value (or
      none at all). */
  datatype Payload = JsonObject(objectKind: Option<Scalar>, event: Event) | JsonOther

  /** `event.get("object_kind", None) != "pipeline"` does not hold and
      does not raise. */
  predicate IsPipelineEvent(p: Payload) {
    p.JsonObject? && p.objectKind == Some(SStr("pipeline"))
  }

  /** An HTTP answer: the status and the body text. */
  datatype Response = Response(status: int, message: string)

  /** `handle_pipeline_event`: the mails the dispatch sent, and whether it
      ran. */
  method HandlePipelineEvent(projects: seq<Handler.Project>, projectKey: string, token: Option<string>,
                             payload: Payload, w: World)
    returns (resp: Response, dispatched: bool, mails: seq<Handler.Mail>)
    ensures var found := FirstIndex(Keys(projects), projectKey);
      && (resp.status == 404 <==> found.None?)
      && (resp.status == 403 <==> found.Some? && !IsAllowed(projects[found.value].pipelineSecret, token))
      && (resp.status == 400 <==> found.Some? && IsAllowed(projects[found.value].pipelineSecret, token)
                                  && !IsPipelineEvent(payload))
      && (resp.status == 200 <==> found.Some? && IsAllowed(projects[found.value].pipelineSecret, token)
                                  && IsPipelineEvent(payload))
      && (dispatched <==> resp.status == 200)
      && (!dispatched ==> mails == [])
      && (dispatched ==>
            var p := projects[found.value];
            mails == Handler.DispatchMails(p.hooks, p.artifactDownloadToken, p.maintainers, payload.event, w))
    ensures resp.status == 404 ==> resp.message == "No project identified by " + projectKey + " is defined."
    ensures resp.status == 403 ==> resp.message == "You\U{2019}re not allowed to publish " + projectKey + "."
    ensures resp.status == 400 ==> resp.message == "Only pipeline events will be processed."
    ensures resp.status == 200 ==> resp.message == "Request accepted."
  {
    dispatched, mails := false, [];
    var found := GetProjectByKey(projects, projectKey);
    if found.Err? {
      return Response(404, "No project identified by " + projectKey + " is defined."), false, [];
    }
    var project := found.value;
    if !IsAllowed(project.pipelineSecret, token) {
      return Response(403, "You\U{2019}re not allowed to publish " + projectKey + "."), false, [];
    }
    if !IsPipelineEvent(payload) {
      return Response(400, "Only pipeline events will be processed."), false, [];
    }
    mails := project.ProcessPipeline(payload.event, w);
    dispatched := true;
    resp := Response(200, "Request accepted.");
  }
}
