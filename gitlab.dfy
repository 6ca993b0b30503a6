/** The GitLab pipeline event, reduced to the fields the dispatch engine
    reads, and the outside world the engine consults (file globbing, tar
    archives, subprocesses, file copies, PATH lookups, downloads). The world
    is a record of functions so that every I/O result is an input of the
    model. */
module Gitlab {
  import opened Common

  /** `urlparse(web_url)`: only scheme and network location are used. */
  datatype WebUrl = WebUrl(scheme: string, netloc: string)

  /** `urlsplit(git_http_url)`. `hostname` is None when the URL has none;
      `userinfo` is the "user:password@" part that the clone URL drops. */
  datatype SplitUrl = SplitUrl(
    scheme: string,
    userinfo: Option<string>,
    hostname: Option<string>,
    port: Option<int>,
    path: string,
    query: string)

  /** One job of the pipeline; `artifactFilename` is
      `artifacts_file.filename`, None when the job kept no artifacts. */
  datatype Build = Build(id: int, artifactFilename: Option<string>)

  /** A pipeline event. `commitAuthorEmail` is None when the payload has no
      `commit.author.email` key. */
  datatype Event = Event(
    projectId: int,
    projectPath: string,
    webUrl: WebUrl,
    gitHttpUrl: SplitUrl,
    tag: Scalar,
    status: Scalar,
    username: string,
    userEmail: string,
    commitAuthorEmail: Option<string>,
    builds: seq<Build>)

  /** What `subprocess.run(cmd, check=True, ...)` did: it completed, it
      exited non-zero (CalledProcessError), or it raised something else. */
  datatype RunOutcome =
    | Completed(stdout: string)
    | CalledProcessError(returnCode: int, output: string, stderr: Option<string>)
    | RunRaised(error: Error)

  /** What `shutil.copy` did with one file. */
  datatype CopyOutcome = Copied | CopyDenied | CopyRaised(error: Error)

  /** The outside world, as seen by one dispatch pass.
      - glob: the files `glob.iglob(path, recursive=True)` yields, in order;
      - tarMembers: the member names of a tar archive, or the error opening it;
      - run: the result of running a command line;
      - copy: the result of copying a file into the backup directory;
      - onPath: whether `shutil.which(name)` finds a binary;
      - pathExists: whether `os.path.exists(path)`;
      - fetch: download the archive at a URL with an optional token and
        unpack it, giving the unpacked directory or the error raised. */
  datatype World = World(
    glob: string -> seq<string>,
    tarMembers: string -> Result<seq<string>>,
    run: seq<string> -> RunOutcome,
    copy: string -> CopyOutcome,
    onPath: string -> bool,
    pathExists: string -> bool,
    fetch: (string, Option<string>) -> Result<string>)
}
