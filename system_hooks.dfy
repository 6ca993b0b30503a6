/** The example hook of debian/system-files/hooks.py: BackupJPEGs copies
    every matched JPEG into a backup directory. A copy refused for lack of
    permission is a failed outcome; any other copy error is left to the
    exception boundary of the hook. (Its example constraint IsUser is the
    `IsUser` leaf of the constraint algebra.) */
module SystemHooks {
  import opened Common
  import opened Gitlab
  import Constraints
  import opened Hooks

  const BACKUP_DEFAULT_NAME: string := "copy JPEGs"
  const BACKUP_GLOB_PATTERN: string := "**/*.jpeg"
  /** Where `World.copy` puts the files. */
  const BACKUP_DIR: string := "/var/backups/jpegs"

  /** `BackupJPEGs._handle_artifact` for one matched file. */
  function BackupArtifact(info: HookInfo, e: Event, path: string, name: string,
                          ctx: Context, w: World): (s: Stream)
    ensures w.copy(path).CopyRaised? ==> s == Raise(w.copy(path).error)
    ensures !w.copy(path).CopyRaised? ==>
      && s.raised.None? && |s.items| == 1
      && s.items[0].targetName == info.name && s.items[0].asset == Some(name)
      && s.items[0].exc.None? && s.items[0].error.None?
      && (s.items[0].wasSuccessful <==> w.copy(path).Copied?)
    ensures w.copy(path).CopyDenied? ==> s.items[0].notify
    ensures w.copy(path).Copied? ==> s.items[0].notify == info.notifyOnSuccess
  {
    match w.copy(path)
    case Copied => Stream([Success(info, Some(name), None, None, None)], None)
    case CopyDenied => Stream([Failure(info, Some(name), None, None, None)], None)
    case CopyRaised(x) => Raise(x)
  }

  /** `BackupJPEGs(...)`: a glob hook named "copy JPEGs" unless named
      otherwise, matching JPEG files unless given another pattern. */
  function NewBackupJPEGs(gate: Option<Constraints.Constraint>, name: Option<string>,
                          notifyOnSuccess: Option<bool>, globPattern: Option<string>): (h: Hook)
    ensures h.Hook? && h.gate == gate && h.body.Glob?
    ensures h.info == MakeInfo(name, Some(BACKUP_DEFAULT_NAME), "BackupJPEGs", notifyOnSuccess)
    ensures h.body.pattern == (match globPattern case Some(p) => p case None => BACKUP_GLOB_PATTERN)
  {
    var r := NewGlobHook(gate, name, Some(BACKUP_DEFAULT_NAME), "BackupJPEGs",
                         notifyOnSuccess, globPattern, Some(BACKUP_GLOB_PATTERN), NoContext, BackupArtifact);
    r.value
  }

  /** A copy error other than a refused permission escapes the per-file
      handler, ends the glob loop, and becomes, at the hook's boundary, one
      error outcome after the outcomes of the files copied before it; the
      files after it are not copied. */
  lemma OtherCopyErrorEndsRun(h: Hook, e: Event, dir: string, w: World, k: nat)
    requires h.Hook? && h.body.Glob? && h.body.context == NoContext && h.body.handle == BackupArtifact
    requires ShouldExecuteFor(h, e) == Ok(true)
    requires k < |GlobMatches(h.body.pattern, dir, w)|
    requires w.copy(GlobMatches(h.body.pattern, dir, w)[k]).CopyRaised?
    requires forall j :: 0 <= j < k ==> !w.copy(GlobMatches(h.body.pattern, dir, w)[j]).CopyRaised?
    ensures var r := RunHook(h, e, dir, w);
      && r.raised.None? && |r.items| == k + 1
      && (forall j :: 0 <= j < k ==> r.items[j].asset == Some(BaseName(GlobMatches(h.body.pattern, dir, w)[j])))
      && !r.items[k].wasSuccessful && r.items[k].asset.None?
      && r.items[k].exc == Some(w.copy(GlobMatches(h.body.pattern, dir, w)[k]).error)
  {
    var ms := GlobMatches(h.body.pattern, dir, w);
    var ss := MatchStreams(h.info, BackupArtifact, e, ms, map[], w);
    assert ExecuteBody(h.info, h.body, e, dir, w) == Concat(ss);
    CopiesStopAtRaise(h.info, e, ms, w, k);
  }

  /** The copy streams of the matched files, up to and including the first
      one whose copy raised: the concatenation raises that copy's exception
      after one outcome for each file before it, in match order. */
  lemma CopiesStopAtRaise(info: HookInfo, e: Event, ms: seq<string>, w: World, k: nat)
    requires k < |ms| && w.copy(ms[k]).CopyRaised?
    requires forall j :: 0 <= j < k ==> !w.copy(ms[j]).CopyRaised?
    ensures var r := Concat(MatchStreams(info, BackupArtifact, e, ms, map[], w));
      && r.raised == Some(w.copy(ms[k]).error) && |r.items| == k
      && (forall j :: 0 <= j < k ==> r.items[j].asset == Some(BaseName(ms[j])))
  {
    var ss := MatchStreams(info, BackupArtifact, e, ms, map[], w);
    var ps := ss[..k];
    forall j | 0 <= j < k
      ensures ps[j].raised.None? && |ps[j].items| == 1 && ps[j].items[0].asset == Some(BaseName(ms[j]))
    {
      assert ps[j] == ss[j] == BackupArtifact(info, e, ms[j], BaseName(ms[j]), map[], w);
    }
    PrefixWithoutRaise(ps, ms);
    ConcatStep(ss, k, Items(ps));
    ConcatStopsAtRaise(ss, k + 1);
  }

  /** Up to the first raising copy, each copied or refused file gives one
      outcome for itself, in match order: streams of one outcome each, none
      raising, concatenate to those outcomes. */
  lemma {:induction false} PrefixWithoutRaise(ps: seq<Stream>, ms: seq<string>)
    requires |ps| <= |ms|
    requires forall j :: 0 <= j < |ps| ==>
      ps[j].raised.None? && |ps[j].items| == 1 && ps[j].items[0].asset == Some(BaseName(ms[j]))
    ensures Concat(ps) == Stream(Items(ps), None)
    ensures |Items(ps)| == |ps|
    ensures forall j :: 0 <= j < |ps| ==> Items(ps)[j].asset == Some(BaseName(ms[j]))
    decreases |ps|
  {
    if ps != [] {
      var n := |ps| - 1;
      var pre := ps[..n];
      assert forall j :: 0 <= j < n ==> pre[j] == ps[j];
      PrefixWithoutRaise(pre, ms);
      var items := Items(pre) + ps[n].items;
      forall j | 0 <= j < |ps| ensures items[j].asset == Some(BaseName(ms[j])) {
        if j < n {
          assert items[j] == Items(pre)[j];
        }
      }
    }
  }
}
