/** The dispatcher of pipedput/handler.py. For a pipeline event it first
    asks the project's hooks, cheaply, whether any of them is interested;
    only then does it download each job's artifact archive, in build order,
    and call every hook, in declaration order, on the unpacked directory.
    The outcomes are collected; a report mail goes out when one of them asks
    to notify. Any exception on the way ends the pass and is reported by
    mail instead, and nothing escapes. Mails go to the event's user and
    commit author and to each maintainer not already among them. */
module Handler {
  import opened Common
  import opened Gitlab
  import Utils
  import opened Hooks

  /** `_get_artifact_urls` for one job. */
  function JobArtifactsUrl(e: Event, b: Build): (u: string)
    ensures StartsWith(u, Utils.ApiBaseUrl(e.webUrl) + "/projects/")
    ensures EndsWith(u, "/artifacts")
  {
    var p := Utils.ApiBaseUrl(e.webUrl) + "/projects/";
    var u := p + IntToString(e.projectId) + "/jobs/" + IntToString(b.id) + "/artifacts";
    assert u[..|p|] == p;
    assert u[|u| - |"/artifacts"|..] == "/artifacts";
    u
  }

  /** The artifact URL of a job: the API base, then `/projects/` and the
      project id, then `/jobs/` and the job id, then `/artifacts`. */
  lemma JobArtifactsUrlSegments(e: Event, b: Build)
    ensures var u := JobArtifactsUrl(e, b);
      var p := Utils.ApiBaseUrl(e.webUrl) + "/projects/" + IntToString(e.projectId) + "/jobs/";
      var j := IntToString(b.id);
      && StartsWith(u, p)
      && |u| == |p| + |j| + 10
      && u[|p|..|p| + |j|] == j
      && EndsWith(u, "/artifacts")
  {
    var u := JobArtifactsUrl(e, b);
    var p := Utils.ApiBaseUrl(e.webUrl) + "/projects/" + IntToString(e.projectId) + "/jobs/";
    var j := IntToString(b.id);
    assert u == p + j + "/artifacts";
    assert u[..|p|] == p;
    assert u[|p|..|p| + |j|] == j;
  }

  /** Under one GitLab instance, an artifact URL names its project and its
      job: two URLs are equal exactly when the project ids and the job ids
      are. */
  lemma JobArtifactsUrlDeterminesIds(e1: Event, b1: Build, e2: Event, b2: Build)
    requires e1.webUrl == e2.webUrl
    ensures JobArtifactsUrl(e1, b1) == JobArtifactsUrl(e2, b2) <==>
      e1.projectId == e2.projectId && b1.id == b2.id
  {
    var p := Utils.ApiBaseUrl(e1.webUrl) + "/projects/";
    var i1, i2 := IntToString(e1.projectId), IntToString(e2.projectId);
    var j1, j2 := IntToString(b1.id), IntToString(b2.id);
    if JobArtifactsUrl(e1, b1) == JobArtifactsUrl(e2, b2) {
      assert p + i1 + "/jobs/" + j1 + "/artifacts" == p + i2 + "/jobs/" + j2 + "/artifacts";
      IntToStringChars(e1.projectId);
      IntToStringChars(e2.projectId);
      UrlSegments(p, i1, j1, i2, j2);
      IntToStringInjective(e1.projectId, e2.projectId);
      IntToStringInjective(b1.id, b2.id);
    }
  }

  /** The project and job segments of an artifact URL can be read back when
      the project segment holds no '/'. */
  lemma UrlSegments(p: string, i1: string, j1: string, i2: string, j2: string)
    requires forall k :: 0 <= k < |i1| ==> i1[k] != '/'
    requires forall k :: 0 <= k < |i2| ==> i2[k] != '/'
    requires p + i1 + "/jobs/" + j1 + "/artifacts" == p + i2 + "/jobs/" + j2 + "/artifacts"
    ensures i1 == i2 && j1 == j2
  {
    var t1, t2 := "/jobs/" + j1 + "/artifacts", "/jobs/" + j2 + "/artifacts";
    var u1, u2 := p + i1 + "/jobs/" + j1 + "/artifacts", p + i2 + "/jobs/" + j2 + "/artifacts";
    assert u1 == p + (i1 + t1);
    assert u2 == p + (i2 + t2);
    assert i1 + t1 == u1[|p|..];
    assert i2 + t2 == u2[|p|..];
    SplitAtSeparator(i1, t1, i2, t2, '/');
    assert j1 == t1[6..|t1| - 10];
    assert j2 == t2[6..|t2| - 10];
  }

  /** The artifact URLs of the jobs that kept artifacts, in build order. */
  function ArtifactUrlsOf(e: Event, builds: seq<Build>): (urls: seq<string>)
    ensures |urls| <= |builds|
    decreases |builds|
  {
    if builds == [] then []
    else
      var head := if builds[0].artifactFilename.Some? then [JobArtifactsUrl(e, builds[0])] else [];
      head + ArtifactUrlsOf(e, builds[1..])
  }

  /** `_get_artifact_urls(event)` */
  function ArtifactUrls(e: Event): seq<string> {
    ArtifactUrlsOf(e, e.builds)
  }

  /** A URL is listed exactly when some job with artifacts has it. */
  lemma {:induction false} ArtifactUrlsMembership(e: Event, builds: seq<Build>)
    ensures forall u :: u in ArtifactUrlsOf(e, builds) <==>
      exists i :: 0 <= i < |builds| && builds[i].artifactFilename.Some? && u == JobArtifactsUrl(e, builds[i])
    decreases |builds|
  {
    if builds != [] {
      ArtifactUrlsMembership(e, builds[1..]);
      forall u | u in ArtifactUrlsOf(e, builds)
        ensures exists i :: 0 <= i < |builds| && builds[i].artifactFilename.Some? && u == JobArtifactsUrl(e, builds[i])
      {
        if u !in ArtifactUrlsOf(e, builds[1..]) {
          assert builds[0].artifactFilename.Some? && u == JobArtifactsUrl(e, builds[0]);
        } else {
          var i :| 0 <= i < |builds[1..]| && builds[1..][i].artifactFilename.Some?
            && u == JobArtifactsUrl(e, builds[1..][i]);
          assert builds[i + 1] == builds[1..][i];
        }
      }
      forall i | 0 <= i < |builds| && builds[i].artifactFilename.Some?
        ensures JobArtifactsUrl(e, builds[i]) in ArtifactUrlsOf(e, builds)
      {
        if i > 0 {
          assert builds[1..][i - 1] == builds[i];
        }
      }
    }
  }

  /** Jobs with different ids get different artifact URLs, so no archive is
      downloaded twice. */
  lemma {:induction false} ArtifactUrlsDistinct(e: Event, builds: seq<Build>)
    requires forall i, j :: 0 <= i < j < |builds| ==> builds[i].id != builds[j].id
    ensures Distinct(ArtifactUrlsOf(e, builds))
    decreases |builds|
  {
    if builds != [] {
      var rest := ArtifactUrlsOf(e, builds[1..]);
      ArtifactUrlsDistinct(e, builds[1..]);
      if builds[0].artifactFilename.Some? {
        var u := JobArtifactsUrl(e, builds[0]);
        ArtifactUrlsMembership(e, builds[1..]);
        forall i | 0 <= i < |builds[1..]| ensures u != JobArtifactsUrl(e, builds[1..][i]) {
          assert builds[1..][i] == builds[i + 1];
          JobArtifactsUrlDeterminesIds(e, builds[0], e, builds[1..][i]);
        }
        assert u !in rest;
        var all := [u] + rest;
        assert forall k :: 1 <= k < |all| ==> all[k] == rest[k - 1];
      }
    }
  }

  /** The URLs follow the build order: the URLs of two runs of jobs are
      those of the first run followed by those of the second, and one job
      contributes its URL exactly when it kept artifacts. */
  lemma {:induction false} ArtifactUrlsInBuildOrder(e: Event, b1: seq<Build>, b2: seq<Build>, b: Build)
    ensures ArtifactUrlsOf(e, b1 + b2) == ArtifactUrlsOf(e, b1) + ArtifactUrlsOf(e, b2)
    ensures ArtifactUrlsOf(e, [b]) == (if b.artifactFilename.Some? then [JobArtifactsUrl(e, b)] else [])
    decreases |b1|
  {
    if b1 != [] {
      assert (b1 + b2)[1..] == b1[1..] + b2;
      ArtifactUrlsInBuildOrder(e, b1[1..], b2, b);
    } else {
      assert b1 + b2 == b2;
    }
    assert [b][1..] == [];
  }

  /** A project maintainer. */
  datatype Contact = Contact(name: string, email: string)

  /** What a report mail reports: the collected deployments, or the
      exception that ended the pass. */
  datatype Report = DeploymentReport(deployments: seq<DeploymentState>) | ErrorReport(exc: Error)

  /** One sent mail; `maintainer` is the maintainer a maintainer mail is
      rendered for. The HTML body itself is not modelled. */
  datatype Mail = Mail(subject: string, recipients: seq<string>, report: Report, maintainer: Option<Contact>)

  /** The mail subject names the project between a fixed prefix and a
      fixed suffix, so it tells projects apart. */
  function Subject(e: Event): (s: string)
    ensures StartsWith(s, "[pipedput] ") && EndsWith(s, " deployment")
    ensures |s| == |e.projectPath| + 22
    ensures s[11..|s| - 11] == e.projectPath
  {
    var s := "[pipedput] " + e.projectPath + " deployment";
    assert s[..11] == "[pipedput] ";
    assert s[|s| - 11..] == " deployment";
    assert s[11..|s| - 11] == e.projectPath;
    s
  }

  /** The event's user, then the commit author if the payload names one and
      it is another address. */
  function DefaultRecipientList(e: Event): seq<string> {
    [e.userEmail]
      + (match e.commitAuthorEmail
         case Some(a) => if a == e.userEmail then [] else [a]
         case None => [])
  }

  /** `_get_default_recipients`: a set of addresses, started with the
      user's and added to with the commit author's; a payload without one
      is tolerated. */
  method DefaultRecipients(e: Event) returns (r: seq<string>)
    ensures r == DefaultRecipientList(e)
  {
    r := [e.userEmail];
    match e.commitAuthorEmail {
      case Some(a) =>
        if a !in r {
          r := r + [a];
        }
      case None =>
    }
  }

  /** The default recipients are the user and the commit author, without
      duplicates. */
  lemma DefaultRecipientsSpec(e: Event)
    ensures Distinct(DefaultRecipientList(e))
    ensures e.userEmail in DefaultRecipientList(e)
    ensures e.commitAuthorEmail.Some? ==> e.commitAuthorEmail.value in DefaultRecipientList(e)
    ensures forall x :: x in DefaultRecipientList(e) ==> x == e.userEmail || Some(x) == e.commitAuthorEmail
    ensures |DefaultRecipientList(e)| == (if e.commitAuthorEmail.Some? && e.commitAuthorEmail.value != e.userEmail then 2 else 1)
  {
  }

  /** A maintainer gets a mail of their own when they have an address and it
      is not among the recipients of the main mail. */
  predicate GetsOwnMail(m: Contact, recipients: seq<string>) {
    m.email != "" && m.email !in recipients
  }

  /** The maintainers who get a mail of their own, in maintainer order (a
      maintainer listed twice counts twice). */
  function Qualifying(ms: seq<Contact>, recipients: seq<string>): (q: seq<Contact>)
    ensures |q| <= |ms|
    ensures forall m :: m in q <==> m in ms && GetsOwnMail(m, recipients)
    decreases |ms|
  {
    if ms == [] then []
    else (if GetsOwnMail(ms[0], recipients) then [ms[0]] else []) + Qualifying(ms[1..], recipients)
  }

  /** Filtering one more maintainer at the end. */
  lemma {:induction false} QualifyingSnoc(ms: seq<Contact>, m: Contact, recipients: seq<string>)
    ensures Qualifying(ms + [m], recipients)
      == Qualifying(ms, recipients) + (if GetsOwnMail(m, recipients) then [m] else [])
    decreases |ms|
  {
    var tail := if GetsOwnMail(m, recipients) then [m] else [];
    if ms == [] {
      assert ms + [m] == [m];
      assert [m][1..] == [];
    } else {
      var t := ms[1..];
      var head := if GetsOwnMail(ms[0], recipients) then [ms[0]] else [];
      assert (ms + [m])[0] == ms[0];
      assert (ms + [m])[1..] == t + [m];
      QualifyingSnoc(t, m, recipients);
      assert Qualifying(ms + [m], recipients) == head + (Qualifying(t, recipients) + tail);
      assert head + (Qualifying(t, recipients) + tail) == (head + Qualifying(t, recipients)) + tail;
    }
  }

  /** The maintainer mails, in maintainer order. */
  function MaintainerMails(ms: seq<Contact>, subject: string, recipients: seq<string>, report: Report): seq<Mail>
    decreases |ms|
  {
    if ms == [] then []
    else
      var m := ms[|ms| - 1];
      MaintainerMails(ms[..|ms| - 1], subject, recipients, report)
        + (if GetsOwnMail(m, recipients) then [Mail(subject, [m.email], report, Some(m))] else [])
  }

  /** The recipients of the main mail: the explicit ones, else the defaults. */
  function MainRecipients(e: Event, explicit: Option<seq<string>>): seq<string> {
    match explicit case Some(r) => r case None => DefaultRecipientList(e)
  }

  /** `_send_report_mail`: the mails it sends, in order. */
  function ReportMails(maintainers: seq<Contact>, e: Event, report: Report, explicit: Option<seq<string>>,
                       disableMaintainerMails: bool): seq<Mail>
  {
    var recipients := MainRecipients(e, explicit);
    [Mail(Subject(e), recipients, report, None)]
      + (if disableMaintainerMails then [] else MaintainerMails(maintainers, Subject(e), recipients, report))
  }

  /** `_send_report_mail` as the source runs it: the main mail, then a loop
      over the maintainers. */
  method SendReportMail(maintainers: seq<Contact>, e: Event, report: Report, explicit: Option<seq<string>>,
                        disableMaintainerMails: bool) returns (sent: seq<Mail>)
    ensures sent == ReportMails(maintainers, e, report, explicit, disableMaintainerMails)
  {
    var subject := "[pipedput] " + e.projectPath + " deployment";
    var recipients;
    if explicit.Some? {
      recipients := explicit.value;
    } else {
      recipients := DefaultRecipients(e);
    }
    sent := [Mail(subject, recipients, report, None)];
    if !disableMaintainerMails {
      var i := 0;
      while i < |maintainers|
        invariant 0 <= i <= |maintainers|
        invariant sent == [Mail(subject, recipients, report, None)]
          + MaintainerMails(maintainers[..i], subject, recipients, report)
      {
        var m := maintainers[i];
        assert maintainers[..i + 1][..i] == maintainers[..i];
        if m.email != "" && m.email !in recipients {
          sent := sent + [Mail(subject, [m.email], report, Some(m))];
        }
        i := i + 1;
      }
      assert maintainers[..i] == maintainers;
    }
  }

  /** The k-th maintainer mail is the one for the k-th maintainer who gets
      a mail of their own. */
  lemma {:induction false} MaintainerMailsFollowQualifying(ms: seq<Contact>, subject: string,
                                                           recipients: seq<string>, report: Report)
    ensures var mm := MaintainerMails(ms, subject, recipients, report);
      var q := Qualifying(ms, recipients);
      && |mm| == |q|
      && forall k :: 0 <= k < |mm| ==> mm[k] == Mail(subject, [q[k].email], report, Some(q[k]))
    decreases |ms|
  {
    if ms != [] {
      var n := |ms| - 1;
      var pre := ms[..n];
      MaintainerMailsFollowQualifying(pre, subject, recipients, report);
      assert ms == pre + [ms[n]];
      QualifyingSnoc(pre, ms[n], recipients);
      var m := ms[n];
      var mp, qp := MaintainerMails(pre, subject, recipients, report), Qualifying(pre, recipients);
      if GetsOwnMail(m, recipients) {
        assert MaintainerMails(ms, subject, recipients, report) == mp + [Mail(subject, [m.email], report, Some(m))];
        assert Qualifying(ms, recipients) == qp + [m];
      } else {
        assert MaintainerMails(ms, subject, recipients, report) == mp;
        assert Qualifying(ms, recipients) == qp;
      }
    }
  }

  /** One maintainer mail per maintainer who has an address that the main
      mail did not reach, in maintainer order, addressed to that maintainer
      alone; so every such maintainer gets one and nobody else gets one. */
  lemma MaintainerMailsSpec(ms: seq<Contact>, subject: string, recipients: seq<string>, report: Report)
    ensures var mm := MaintainerMails(ms, subject, recipients, report);
      var q := Qualifying(ms, recipients);
      && |mm| == |q|
      && (forall k :: 0 <= k < |mm| ==>
            && mm[k] == Mail(subject, [q[k].email], report, Some(q[k]))
            && GetsOwnMail(q[k], recipients))
      && (forall m :: m in ms && GetsOwnMail(m, recipients) <==>
            exists k :: 0 <= k < |mm| && mm[k].maintainer == Some(m))
  {
    MaintainerMailsFollowQualifying(ms, subject, recipients, report);
    var q := Qualifying(ms, recipients);
    var mm := MaintainerMails(ms, subject, recipients, report);
    forall k | 0 <= k < |q| ensures GetsOwnMail(q[k], recipients) && q[k] in ms {
      assert q[k] in q;
    }
    forall m | m in ms && GetsOwnMail(m, recipients)
      ensures exists k :: 0 <= k < |mm| && mm[k].maintainer == Some(m)
    {
      var k :| 0 <= k < |q| && q[k] == m;
      assert mm[k].maintainer == Some(m);
    }
  }

  /** `_send_report_mail` sends exactly one main mail, first, with the
      deployment subject, to the explicit recipients or else the default
      ones; then, unless maintainer mails are disabled, one mail per
      maintainer who has an address that is not among those recipients, in
      maintainer order, and no other mail. */
  lemma ReportMailsSpec(maintainers: seq<Contact>, e: Event, report: Report, explicit: Option<seq<string>>,
                        disable: bool)
    ensures var mails := ReportMails(maintainers, e, report, explicit, disable);
      var q := if disable then [] else Qualifying(maintainers, MainRecipients(e, explicit));
      && |mails| == 1 + |q|
      && mails[0] == Mail(Subject(e), MainRecipients(e, explicit), report, None)
      && (forall k :: 1 <= k < |mails| ==>
            && mails[k] == Mail(Subject(e), [q[k - 1].email], report, Some(q[k - 1]))
            && q[k - 1] in maintainers && GetsOwnMail(q[k - 1], MainRecipients(e, explicit)))
      && (!disable ==> forall m :: m in maintainers && GetsOwnMail(m, MainRecipients(e, explicit)) <==>
            exists k :: 1 <= k < |mails| && mails[k].maintainer == Some(m))
  {
    var recipients := MainRecipients(e, explicit);
    var mails := ReportMails(maintainers, e, report, explicit, disable);
    if !disable {
      MaintainerMailsSpec(maintainers, Subject(e), recipients, report);
      var mm := MaintainerMails(maintainers, Subject(e), recipients, report);
      var q := Qualifying(maintainers, recipients);
      assert mails == [Mail(Subject(e), recipients, report, None)] + mm;
      assert forall k :: 1 <= k < |mails| ==> mails[k] == mm[k - 1];
      forall j | 0 <= j < |q| ensures q[j] in maintainers {
        assert q[j] in q;
      }
      forall m | m in maintainers && GetsOwnMail(m, recipients)
        ensures exists k :: 1 <= k < |mails| && mails[k].maintainer == Some(m)
      {
        var k :| 0 <= k < |mm| && mm[k].maintainer == Some(m);
        assert mails[k + 1] == mm[k];
      }
    }
  }

  /** A maintainer whose address is the commit author's gets no second mail:
      with an administrator and the author as maintainers, two mails go out. */
  lemma AuthorMaintainerGetsNoSecondMail(e: Event, report: Report, admin: string, author: string)
    requires e.commitAuthorEmail == Some(author)
    requires admin != "" && admin != e.userEmail && admin != author
    ensures var mails := ReportMails([Contact("Admin", admin), Contact("Author", author)], e, report, None, false);
      |mails| == 2 && mails[1].recipients == [admin]
  {
    var recipients := DefaultRecipientList(e);
    assert author in recipients;
    assert admin !in recipients;
    var ms := [Contact("Admin", admin), Contact("Author", author)];
    var subject := Subject(e);
    assert ms[..1] == [Contact("Admin", admin)];
    assert ms[..1][..0] == [];
    assert MaintainerMails(ms[..1], subject, recipients, report)
      == [Mail(subject, [admin], report, Some(Contact("Admin", admin)))];
    assert MaintainerMails(ms, subject, recipients, report)
      == MaintainerMails(ms[..1], subject, recipients, report);
  }

  /** Whether an outcome asks to notify, accumulated with `notify |=`. */
  function AnyNotify(ds: seq<DeploymentState>): bool
    decreases |ds|
  {
    if ds == [] then false else AnyNotify(ds[..|ds| - 1]) || ds[|ds| - 1].notify
  }

  /** The accumulated flag is the OR of the outcomes' flags. */
  lemma {:induction false} AnyNotifyExists(ds: seq<DeploymentState>)
    ensures AnyNotify(ds) <==> exists i :: 0 <= i < |ds| && ds[i].notify
    decreases |ds|
  {
    if ds != [] {
      var n := |ds| - 1;
      AnyNotifyExists(ds[..n]);
      assert forall i :: 0 <= i < n ==> ds[..n][i] == ds[i];
    }
  }

  /** The loop of `_handle_deployment_report` over the stream: every
      outcome appended in stream order, `notify |= deployment.notify`; an
      exception raised by the stream escapes the loop and the outcomes
      collected so far are lost with it. */
  method CollectDeployments(s: Stream) returns (r: Result<(bool, seq<DeploymentState>)>)
    ensures s.raised.Some? ==> r == Err(s.raised.value)
    ensures s.raised.None? ==> r == Ok((AnyNotify(s.items), s.items))
  {
    var notify := false;
    var deployments: seq<DeploymentState> := [];
    var i := 0;
    while i < |s.items|
      invariant 0 <= i <= |s.items|
      invariant deployments == s.items[..i]
      invariant notify == AnyNotify(s.items[..i])
    {
      var deployment := s.items[i];
      assert s.items[..i + 1][..i] == s.items[..i];
      notify := notify || deployment.notify;
      deployments := deployments + [deployment];
      i := i + 1;
    }
    assert s.items[..i] == s.items;
    if s.raised.Some? {
      return Err(s.raised.value);
    }
    r := Ok((notify, deployments));
  }

  /** `any(hook.should_execute_for(event) for hook in project.hooks)`:
      the gates in declaration order, stopping at the first true one; a
      gate's exception propagates. */
  function AnyInterested(hooks: seq<Hook>, e: Event): Result<bool>
    decreases |hooks|
  {
    if hooks == [] then Ok(false)
    else
      match ShouldExecuteFor(hooks[0], e)
      case Err(x) => Err(x)
      case Ok(b) => if b then Ok(true) else AnyInterested(hooks[1..], e)
  }

  /** `any` is true exactly when some hook's gate is true and every gate
      before it false; it is false exactly when every gate is false. The
      gates after the first true one are never consulted. */
  lemma {:induction false} AnyInterestedSpec(hooks: seq<Hook>, e: Event)
    ensures AnyInterested(hooks, e) == Ok(true) <==>
      exists i :: 0 <= i < |hooks| && ShouldExecuteFor(hooks[i], e) == Ok(true)
        && forall j :: 0 <= j < i ==> ShouldExecuteFor(hooks[j], e) == Ok(false)
    ensures AnyInterested(hooks, e) == Ok(false) <==>
      forall i :: 0 <= i < |hooks| ==> ShouldExecuteFor(hooks[i], e) == Ok(false)
    decreases |hooks|
  {
    if hooks != [] {
      var rest := hooks[1..];
      AnyInterestedSpec(rest, e);
      assert forall j :: 0 <= j < |rest| ==> rest[j] == hooks[j + 1];
      if AnyInterested(hooks, e) == Ok(true) && ShouldExecuteFor(hooks[0], e) != Ok(true) {
        var i :| 0 <= i < |rest| && ShouldExecuteFor(rest[i], e) == Ok(true)
          && forall j :: 0 <= j < i ==> ShouldExecuteFor(rest[j], e) == Ok(false);
        assert ShouldExecuteFor(hooks[i + 1], e) == Ok(true);
        assert forall j :: 1 <= j < i + 1 ==> ShouldExecuteFor(hooks[j], e) == Ok(false);
      }
      if exists i :: (0 <= i < |hooks| && ShouldExecuteFor(hooks[i], e) == Ok(true)
                      && forall j :: 0 <= j < i ==> ShouldExecuteFor(hooks[j], e) == Ok(false)) {
        var i :| 0 <= i < |hooks| && ShouldExecuteFor(hooks[i], e) == Ok(true)
          && forall j :: 0 <= j < i ==> ShouldExecuteFor(hooks[j], e) == Ok(false);
        if i > 0 {
          assert ShouldExecuteFor(rest[i - 1], e) == Ok(true);
          assert forall j :: 0 <= j < i - 1 ==> ShouldExecuteFor(rest[j], e) == Ok(false);
        }
      }
    }
  }

  /** Each hook called on the unpacked directory, in declaration order. */
  function HookStreams(hooks: seq<Hook>, e: Event, dir: string, w: World): (ss: seq<Stream>)
    ensures |ss| == |hooks|
    ensures forall i :: 0 <= i < |hooks| ==> ss[i] == RunHook(hooks[i], e, dir, w)
  {
    seq(|hooks|, i requires 0 <= i < |hooks| => RunHook(hooks[i], e, dir, w))
  }

  /** `_process_artifact`: download and unpack the archive (its error ends
      the pass), then `yield from` every hook in order. */
  function ProcessArtifact(hooks: seq<Hook>, token: Option<string>, url: string, e: Event, w: World): Stream {
    match w.fetch(url, token)
    case Err(x) => Raise(x)
    case Ok(dir) => Concat(HookStreams(hooks, e, dir, w))
  }

  function ArtifactStreams(hooks: seq<Hook>, token: Option<string>, urls: seq<string>, e: Event, w: World): (ss: seq<Stream>)
    ensures |ss| == |urls|
    ensures forall i :: 0 <= i < |urls| ==> ss[i] == ProcessArtifact(hooks, token, urls[i], e, w)
  {
    seq(|urls|, i requires 0 <= i < |urls| => ProcessArtifact(hooks, token, urls[i], e, w))
  }

  /** `process_project_pipeline` as a generator: nothing unless some hook
      is interested; then the artifacts in build order. */
  function PipelineStream(hooks: seq<Hook>, token: Option<string>, e: Event, w: World): Stream {
    match AnyInterested(hooks, e)
    case Err(x) => Raise(x)
    case Ok(go) => if go then Concat(ArtifactStreams(hooks, token, ArtifactUrls(e), e, w)) else Empty
  }

  /** The URLs downloaded, given the stream each artifact's processing
      gives: in order, up to the first artifact whose processing raised. */
  function FetchedUrls(urls: seq<string>, ss: seq<Stream>): (f: seq<string>)
    requires |ss| == |urls|
    ensures |f| <= |urls|
    decreases |urls|
  {
    if urls == [] then []
    else
      var rest := if ss[0].raised.Some? then [] else FetchedUrls(urls[1..], ss[1..]);
      [urls[0]] + rest
  }

  /** The URLs a pass downloads. */
  function Fetches(hooks: seq<Hook>, token: Option<string>, e: Event, w: World): seq<string> {
    if AnyInterested(hooks, e) == Ok(true)
    then FetchedUrls(ArtifactUrls(e), ArtifactStreams(hooks, token, ArtifactUrls(e), e, w))
    else []
  }

  /** `_handle_deployment_report` around the stream: the outcome of the
      collecting loop, then a report iff some outcome asks to notify. */
  function DeploymentReportMails(maintainers: seq<Contact>, e: Event, s: Stream): Result<seq<Mail>> {
    if s.raised.Some? then Err(s.raised.value)
    else if AnyNotify(s.items) then Ok(ReportMails(maintainers, e, DeploymentReport(s.items), None, false))
    else Ok([])
  }

  /** `_handle_error` around it: an exception becomes one error report to
      the default recipients and the maintainers; nothing is re-raised. */
  function HandleError(maintainers: seq<Contact>, e: Event, body: Result<seq<Mail>>): seq<Mail> {
    match body
    case Ok(mails) => mails
    case Err(x) => ReportMails(maintainers, e, ErrorReport(x), None, false)
  }

  /** The mails one pass of `process_project_pipeline` sends. */
  function DispatchMails(hooks: seq<Hook>, token: Option<string>, maintainers: seq<Contact>,
                         e: Event, w: World): seq<Mail>
  {
    HandleError(maintainers, e, DeploymentReportMails(maintainers, e, PipelineStream(hooks, token, e, w)))
  }

  /** The notification policy and the error boundary: when the pass raised,
      the outcomes collected so far are dropped and exactly one error report
      goes out (no deployment report); otherwise a deployment report of all
      outcomes in stream order goes out iff some outcome asks to notify, so
      an empty pass sends nothing. */
  lemma DispatchPolicy(hooks: seq<Hook>, token: Option<string>, maintainers: seq<Contact>, e: Event, w: World)
    ensures var s := PipelineStream(hooks, token, e, w);
      var mails := DispatchMails(hooks, token, maintainers, e, w);
      && (s.raised.Some? ==>
            mails == ReportMails(maintainers, e, ErrorReport(s.raised.value), None, false))
      && (s.raised.None? && (exists i :: 0 <= i < |s.items| && s.items[i].notify) ==>
            mails == ReportMails(maintainers, e, DeploymentReport(s.items), None, false))
      && (s.raised.None? && (forall i :: 0 <= i < |s.items| ==> !s.items[i].notify) ==> mails == [])
      && (forall m :: m in mails && m.report.DeploymentReport? ==> s.raised.None?)
  {
    var s := PipelineStream(hooks, token, e, w);
    AnyNotifyExists(s.items);
    if s.raised.Some? {
      ReportMailsSpec(maintainers, e, ErrorReport(s.raised.value), None, false);
    }
  }

  /** When no hook is interested, nothing is downloaded, no hook runs and no
      mail is sent. */
  lemma NoInterestNoWork(hooks: seq<Hook>, token: Option<string>, maintainers: seq<Contact>, e: Event, w: World)
    requires forall i :: 0 <= i < |hooks| ==> ShouldExecuteFor(hooks[i], e) == Ok(false)
    ensures Fetches(hooks, token, e, w) == []
    ensures PipelineStream(hooks, token, e, w) == Empty
    ensures DispatchMails(hooks, token, maintainers, e, w) == []
  {
    AnyInterestedSpec(hooks, e);
  }

  /** A hook with the standard `__call__` whose gate does not raise never
      raises; so, with only such hooks, processing an artifact raises only
      when its download fails. */
  lemma {:induction false} StandardHooksNeverRaise(hooks: seq<Hook>, e: Event, dir: string, w: World)
    requires forall i :: 0 <= i < |hooks| ==> hooks[i].Hook? && ShouldExecuteFor(hooks[i], e).Ok?
    ensures Concat(HookStreams(hooks, e, dir, w)) == Stream(Items(HookStreams(hooks, e, dir, w)), None)
  {
    var ss := HookStreams(hooks, e, dir, w);
    forall i | 0 <= i < |ss| ensures ss[i].raised.None? {
      HookIsolation(hooks[i], e, dir, w);
    }
    ConcatOutcome(ss);
  }

  /** Outcomes are ordered by artifact URL, then by hook declaration order:
      with an interested hook and no exception, the pass yields, for each
      URL in build order, the outcomes of every hook in declaration order. */
  lemma PipelineOrder(hooks: seq<Hook>, token: Option<string>, e: Event, w: World)
    requires AnyInterested(hooks, e) == Ok(true)
    requires forall i :: 0 <= i < |ArtifactUrls(e)| ==>
      ProcessArtifact(hooks, token, ArtifactUrls(e)[i], e, w).raised.None?
    ensures PipelineStream(hooks, token, e, w) == Stream(Items(ArtifactStreams(hooks, token, ArtifactUrls(e), e, w)), None)
    ensures forall i :: 0 <= i < |ArtifactUrls(e)| ==>
      && w.fetch(ArtifactUrls(e)[i], token).Ok?
      && ArtifactStreams(hooks, token, ArtifactUrls(e), e, w)[i].items
         == Items(HookStreams(hooks, e, w.fetch(ArtifactUrls(e)[i], token).value, w))
  {
    var urls := ArtifactUrls(e);
    var ss := ArtifactStreams(hooks, token, urls, e, w);
    ConcatOutcome(ss);
    forall i | 0 <= i < |urls|
      ensures w.fetch(urls[i], token).Ok? && ss[i].items == Items(HookStreams(hooks, e, w.fetch(urls[i], token).value, w))
    {
      var f := w.fetch(urls[i], token);
      if f.Ok? {
        var hs := HookStreams(hooks, e, f.value, w);
        ConcatOutcome(hs);
        assert Concat(hs).raised.None?;
        assert forall j :: 0 <= j < |hs| ==> hs[j].raised.None?;
      }
    }
  }

  /** The downloads stop at the first artifact whose processing raised:
      the URLs fetched are a prefix of the artifact URLs that ends with the
      first raising one, or takes all of them when none raises. */
  lemma {:induction false} FetchedUrlsPrefix(urls: seq<string>, ss: seq<Stream>)
    requires |ss| == |urls|
    ensures var f := FetchedUrls(urls, ss);
      && |f| <= |urls| && f == urls[..|f|]
      && (urls != [] ==> |f| >= 1)
      && (forall j :: 0 <= j < |f| - 1 ==> ss[j].raised.None?)
      && (|f| < |urls| ==> ss[|f| - 1].raised.Some?)
      && ((forall i :: 0 <= i < |ss| ==> ss[i].raised.None?) ==> f == urls)
      && (forall k :: 0 <= k < |ss| && ss[k].raised.Some? && (forall j :: 0 <= j < k ==> ss[j].raised.None?) ==>
            f == urls[..k + 1])
    decreases |urls|
  {
    if urls != [] {
      FetchedUrlsPrefix(urls[1..], ss[1..]);
      var f := FetchedUrls(urls, ss);
      var rest := FetchedUrls(urls[1..], ss[1..]);
      if ss[0].raised.None? {
        assert f == [urls[0]] + rest;
        assert [urls[0]] + urls[1..][..|rest|] == urls[..|rest| + 1];
        assert forall j :: 0 <= j < |ss[1..]| ==> ss[1..][j] == ss[j + 1];
      }
    }
  }

  /** The outcome of the pass over the artifacts depends only on the
      artifacts fetched: the streams after the first raising one add
      nothing. */
  lemma FetchedDecideStream(urls: seq<string>, ss: seq<Stream>)
    requires |ss| == |urls|
    ensures Concat(ss) == Concat(ss[..|FetchedUrls(urls, ss)|])
  {
    FetchedUrlsPrefix(urls, ss);
    var n := |FetchedUrls(urls, ss)|;
    if n == |ss| {
      assert ss[..n] == ss;
    } else {
      ConcatOutcome(ss[..n]);
      assert ss[..n][n - 1] == ss[n - 1];
      ConcatStopsAtRaise(ss, n);
    }
  }

  /** A pass's stream is that of the artifacts it downloads, in order. */
  lemma PipelineUsesFetched(hooks: seq<Hook>, token: Option<string>, e: Event, w: World)
    ensures AnyInterested(hooks, e) == Ok(true) ==>
      var ss := ArtifactStreams(hooks, token, ArtifactUrls(e), e, w);
      PipelineStream(hooks, token, e, w) == Concat(ss[..|Fetches(hooks, token, e, w)|])
  {
    if AnyInterested(hooks, e) == Ok(true) {
      var urls := ArtifactUrls(e);
      var ss := ArtifactStreams(hooks, token, urls, e, w);
      assert PipelineStream(hooks, token, e, w) == Concat(ss);
      assert Fetches(hooks, token, e, w) == FetchedUrls(urls, ss);
      FetchedDecideStream(urls, ss);
    }
  }

  /** How `Project(hooks=...)` was given its hooks. */
  datatype HooksArg = NoHooks | HookIterable(items: seq<Hook>) | SingleHook(hook: Hook)

  /** None becomes the empty list, an iterable a list copy, one hook a
      one-element list. */
  function NormalizeHooks(a: HooksArg): (r: seq<Hook>)
    ensures a.NoHooks? ==> r == []
    ensures a.HookIterable? ==> r == a.items
    ensures a.SingleHook? ==> r == [a.hook]
  {
    match a
    case NoHooks => []
    case HookIterable(items) => items
    case SingleHook(h) => [h]
  }

  /** A project configuration: its key, its pipeline secret, the token used
      to download artifacts, its maintainers and its hooks, which `AddHook`
      extends. */
  class Project {
    const key: string
    const pipelineSecret: Option<string>
    const artifactDownloadToken: Option<string>
    const maintainers: seq<Contact>
    var hooks: seq<Hook>

    constructor (key: string, hooks: HooksArg, pipelineSecret: Option<string>,
                 artifactDownloadToken: Option<string>, maintainers: seq<Contact>)
      ensures this.key == key && this.pipelineSecret == pipelineSecret
      ensures this.artifactDownloadToken == artifactDownloadToken && this.maintainers == maintainers
      ensures this.hooks == NormalizeHooks(hooks)
    {
      this.key := key;
      this.pipelineSecret := pipelineSecret;
      this.artifactDownloadToken := artifactDownloadToken;
      this.maintainers := maintainers;
      this.hooks := NormalizeHooks(hooks);
    }

    /** `add_hook` appends at the end and returns the project itself. */
    method AddHook(hook: Hook) returns (self: Project)
      modifies this
      ensures hooks == old(hooks) + [hook]
      ensures self == this
    {
      hooks := hooks + [hook];
      self := this;
    }

    /** `process_project_pipeline(project, event)`: run the pass, collect
      its outcomes, and send the mails the notification policy and the
      error boundary call for. */
    method ProcessPipeline(e: Event, w: World) returns (mails: seq<Mail>)
      ensures mails == DispatchMails(hooks, artifactDownloadToken, maintainers, e, w)
    {
      var s := PipelineStream(hooks, artifactDownloadToken, e, w);
      var collected := CollectDeployments(s);
      match collected {
        case Err(x) =>
          mails := SendReportMail(maintainers, e, ErrorReport(x), None, false);
        case Ok(c) =>
          if c.0 {
            mails := SendReportMail(maintainers, e, DeploymentReport(c.1), None, false);
          } else {
            mails := [];
          }
      }
    }
  }

  /** A project built with its hooks, then given one more, calls them in
      that order. */
  method BuildProject(key: string, first: Hook, second: Hook) returns (p: Project)
    ensures fresh(p) && p.key == key && p.hooks == [first, second]
  {
    p := new Project(key, SingleHook(first), None, None, []);
    var same := p.AddHook(second);
    assert same == p;
  }
}
