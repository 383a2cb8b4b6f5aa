/** The upload step `perform`: skip a build that was aborted or failed, expand
    the source patterns, make sure the bucket exists, then upload every match of
    every comma-separated pattern in order, logging one line per uploaded file.
    The whole walk sits in one `try`: the first fault of any kind ends it, and the
    catch clauses turn the fault into the build result.

    The Minio client, the host's file listing, the search-root computation and
    the remote upload are not modelled; their answers are an `Env` value. The
    behaviour is first given as functions (`Outcome` and the steps it is made
    of), then as the methods of module `Perform`, which are proved to compute
    those functions. */
module Upload {

  import opened Wrappers
  import opened JavaStrings
  import opened ObjectNames

  /** Jenkins' build results. */
  datatype BuildResult = Success | Unstable | Failure | NotBuilt | Aborted

  /** The checked exceptions the catch clauses handle: the Minio client's own
      exceptions, IOException, InterruptedException and RegionConflictException. */
  datatype Fault = MinioError | IOError | Interrupted | RegionConflict

  /** What the host's calls throw: getEnvironment, list, isDirectory and act. */
  type HostFault = f: Fault | f == IOError || f == Interrupted witness IOError

  /** What bucketExists throws. */
  type QueryFault = f: Fault | f == MinioError || f == IOError witness MinioError

  /** What makeBucket throws. */
  type CreateFault = f: Fault | f != Interrupted witness MinioError

  /** A call that returns a value or throws. */
  datatype Call<T, E> = Returned(value: T) | Raised(fault: E)

  /** A call that returns nothing or throws. */
  datatype Status<E> = Ok | Threw(fault: E)

  /** A path the host's listing returned: its remote path, the answer of
      isDirectory and the outcome of uploading it. */
  datatype Match = Match(remote: string, isDirectory: Call<bool, HostFault>, upload: Status<HostFault>)

  /** The answers of everything outside the model. `expanded` is the source
      pattern after macro expansion (`None` for null); `list` gives the matches
      of one pattern (the exclusion pattern is fixed for the run); and
      `searchPathLength` gives the length of the search root of a trimmed
      pattern. */
  datatype Env = Env(
    environment: Status<HostFault>,
    expanded: Option<string>,
    bucketExists: Call<bool, QueryFault>,
    makeBucket: Status<CreateFault>,
    list: string -> Call<seq<Match>, HostFault>,
    searchPathLength: string -> int)

  /** The uploader's configuration as perform uses it. */
  datatype Uploader = Uploader(bucketName: string, objectNamePrefix: Option<string>)

  /** Calls that change the store, in the order they are made. */
  datatype Event = MakeBucket(bucket: string) | Put(bucket: string, file: string, key: string)

  datatype SkipReason = BuildAborted | BuildFailed

  /** Lines written to the build log. */
  datatype LogLine =
    | Skip(reason: SkipReason)
    | Uploaded(fileName: string, bucket: string, key: string)
    | Error(fault: Fault)

  /** Why the `try` block stopped early: a checked exception, or an unchecked
      index-out-of-bounds exception that no catch clause handles. */
  datatype Halt = Thrown(fault: Fault) | OutOfBounds

  /** How perform ended. */
  datatype Exit = Skipped | Completed | Caught(fault: Fault) | Escaped

  /** What a stretch of the `try` block did, and whether it stopped early. */
  datatype Progress = Progress(trace: seq<Event>, log: seq<LogLine>, halt: Option<Halt>)

  /** What perform did as a whole. */
  datatype Report = Report(trace: seq<Event>, log: seq<LogLine>, exit: Exit)

  /** One item of the walk: a listed file together with the search-root length
      of its pattern, or a pattern whose listing threw. */
  datatype Job = Job(searchPathLength: int, file: Match) | ListFailed(fault: HostFault)

  function Nothing(): Progress
  {
    Progress([], [], None)
  }

  function Stop(h: Halt): Progress
  {
    Progress([], [], Some(h))
  }

  /** `a` followed by `b`, unless `a` stopped early. */
  function Then(a: Progress, b: Progress): Progress
  {
    if a.halt.Some? then a else Progress(a.trace + b.trace, a.log + b.log, b.halt)
  }

  /** The body of the inner loop for one match. */
  function FileStep(u: Uploader, searchPathLength: int, m: Match): (p: Progress)
    ensures |p.log| <= |p.trace| <= 1
    ensures p.halt.None? <==> |p.log| == 1
  {
    match m.isDirectory
    case Raised(f) => Stop(Thrown(f))
    case Returned(isDirectory) =>
      if isDirectory then Stop(Thrown(IOError))
      else
        match GetFilename(m.remote, searchPathLength)
        case None => Stop(OutOfBounds)
        case Some(fileName) =>
          match ObjectName(fileName, u.objectNamePrefix)
          case None => Stop(OutOfBounds)
          case Some(key) =>
            var put := Put(u.bucketName, m.remote, key);
            match m.upload
            case Threw(f) => Progress([put], [], Some(Thrown(f)))
            case Ok => Progress([put], [Uploaded(fileName, u.bucketName, key)], None)
  }

  /** The inner loop over the matches of one pattern. */
  function MatchesStep(u: Uploader, searchPathLength: int, ms: seq<Match>): (p: Progress)
    ensures |p.log| <= |p.trace| <= |p.log| + 1
    ensures p.halt.None? ==> |p.log| == |p.trace| == |ms|
  {
    if ms == [] then Nothing()
    else Then(MatchesStep(u, searchPathLength, ms[..|ms| - 1]), FileStep(u, searchPathLength, ms[|ms| - 1]))
  }

  /** One iteration of the outer loop: list the pattern's matches, then upload them. */
  function PatternStep(u: Uploader, env: Env, pattern: string): (p: Progress)
    ensures |p.log| <= |p.trace| <= |p.log| + 1
    ensures p.halt.None? ==> env.list(pattern).Returned? && |p.log| == |p.trace| == |env.list(pattern).value|
  {
    match env.list(pattern)
    case Raised(f) => Stop(Thrown(f))
    case Returned(ms) => MatchesStep(u, env.searchPathLength(Trim(pattern)), ms)
  }

  /** The outer loop over the patterns. */
  function PatternsStep(u: Uploader, env: Env, patterns: seq<string>): (p: Progress)
    ensures |p.log| <= |p.trace| <= |p.log| + 1
    ensures p.halt.None? ==> |p.log| == |p.trace|
  {
    if patterns == [] then Nothing()
    else Then(PatternsStep(u, env, patterns[..|patterns| - 1]), PatternStep(u, env, patterns[|patterns| - 1]))
  }

  /** bucketExists, then makeBucket only when the bucket is absent. */
  function BucketStep(u: Uploader, env: Env): (p: Progress)
    ensures p.trace == [] || p.trace == [MakeBucket(u.bucketName)]
    ensures p.trace != [] <==> env.bucketExists == Returned(false)
    ensures p.log == []
    ensures p.halt.None? <==> BucketReady(env)
  {
    match env.bucketExists
    case Raised(f) => Stop(Thrown(f))
    case Returned(found) =>
      if found then Nothing()
      else
        match env.makeBucket
        case Threw(f) => Progress([MakeBucket(u.bucketName)], [], Some(Thrown(f)))
        case Ok => Progress([MakeBucket(u.bucketName)], [], None)
  }

  /** The `try` block. */
  function Body(u: Uploader, env: Env): (p: Progress)
    ensures |p.log| <= |p.trace|
    ensures p.trace != [] ==> env.environment.Ok? && env.expanded.Some?
    ensures p.halt.None? ==> env.environment.Ok? && env.expanded.Some? && BucketReady(env)
  {
    match env.environment
    case Threw(f) => Stop(Thrown(f))
    case Ok =>
      match env.expanded
      case None => Stop(Thrown(IOError))
      case Some(expanded) => Then(BucketStep(u, env), PatternsStep(u, env, Split(expanded, ',')))
  }

  /** The catch clauses: each checked exception adds one error line; an
      unchecked one leaves perform. */
  function Finish(p: Progress): (r: Report)
    ensures r.trace == p.trace
    ensures HaltOf(r.exit) == p.halt && r.exit != Skipped
    ensures r.log == p.log + if r.exit.Caught? then [Error(r.exit.fault)] else []
  {
    match p.halt
    case None => Report(p.trace, p.log, Completed)
    case Some(OutOfBounds) => Report(p.trace, p.log, Escaped)
    case Some(Thrown(f)) => Report(p.trace, p.log + [Error(f)], Caught(f))
  }

  /** The build result after perform: every caught fault but a region conflict
      marks the build unstable; nothing else touches it. */
  function ResultAfter(incoming: Option<BuildResult>, exit: Exit): (r: Option<BuildResult>)
    ensures r == incoming || r == Some(Unstable)
    ensures r != incoming ==> exit.Caught? && exit.fault != RegionConflict
    ensures exit.Caught? && exit.fault != RegionConflict ==> r == Some(Unstable)
  {
    if exit.Caught? && exit.fault != RegionConflict then Some(Unstable) else incoming
  }

  /** perform reaches the `try` block and gets past the null check. */
  predicate Publishes(env: Env, incoming: Option<BuildResult>)
  {
    && incoming != Some(Aborted)
    && incoming != Some(Failure)
    && env.environment.Ok?
    && env.expanded.Some?
  }

  /** The patterns perform walks, in order. */
  function Patterns(env: Env): seq<string>
    requires env.expanded.Some?
  {
    Split(env.expanded.value, ',')
  }

  /** What perform does, given the incoming build result. */
  function Outcome(u: Uploader, env: Env, incoming: Option<BuildResult>): (r: Report)
    ensures r.exit == Skipped <==> incoming == Some(Aborted) || incoming == Some(Failure)
    ensures r.exit == Skipped ==> r.trace == [] && |r.log| == 1 && r.log[0].Skip?
    ensures (incoming != Some(Aborted) && incoming != Some(Failure) && env.environment.Ok? && env.expanded.None?)
              ==> r.trace == [] && r.exit == Caught(IOError) && ResultAfter(incoming, r.exit) == Some(Unstable)
    ensures r.exit.Caught? ==> r.log != [] && r.log[|r.log| - 1] == Error(r.exit.fault)
    ensures !Publishes(env, incoming) ==> r.trace == [] && r.exit != Caught(RegionConflict)
  {
    if incoming == Some(Aborted) then Report([], [Skip(BuildAborted)], Skipped)
    else if incoming == Some(Failure) then Report([], [Skip(BuildFailed)], Skipped)
    else Finish(Body(u, env))
  }

  // ----- Where the loops stop -----

  lemma {:induction false} MatchesStopped(u: Uploader, n: int, ms: seq<Match>, j: nat)
    requires j <= |ms|
    requires MatchesStep(u, n, ms[..j]).halt.Some?
    ensures MatchesStep(u, n, ms) == MatchesStep(u, n, ms[..j])
    decreases |ms| - j
  {
    if j < |ms| {
      var init := ms[..|ms| - 1];
      assert init[..j] == ms[..j];
      MatchesStopped(u, n, init, j);
    } else {
      assert ms[..j] == ms;
    }
  }

  lemma {:induction false} PatternsStopped(u: Uploader, env: Env, ps: seq<string>, i: nat)
    requires i <= |ps|
    requires PatternsStep(u, env, ps[..i]).halt.Some?
    ensures PatternsStep(u, env, ps) == PatternsStep(u, env, ps[..i])
    decreases |ps| - i
  {
    if i < |ps| {
      var init := ps[..|ps| - 1];
      assert init[..i] == ps[..i];
      PatternsStopped(u, env, init, i);
    } else {
      assert ps[..i] == ps;
    }
  }

  // ----- The files perform uploads -----

  function JobsOf(n: int, ms: seq<Match>): (js: seq<Job>)
    ensures |js| == |ms|
    ensures forall k :: 0 <= k < |ms| ==> js[k] == Job(n, ms[k])
  {
    seq(|ms|, k requires 0 <= k < |ms| => Job(n, ms[k]))
  }

  /** Every file the host lists for the patterns, pattern by pattern and in
      listing order; a pattern whose listing throws contributes its fault. */
  function Listed(env: Env, ps: seq<string>): seq<Job>
  {
    if ps == [] then []
    else
      var p := ps[|ps| - 1];
      Listed(env, ps[..|ps| - 1])
        + match env.list(p)
          case Raised(f) => [ListFailed(f)]
          case Returned(ms) => JobsOf(env.searchPathLength(Trim(p)), ms)
  }

  /** `job` is a listed file that is no directory and has both a relative name
      and a key. */
  predicate Uploadable(u: Uploader, job: Job)
  {
    && job.Job?
    && job.file.isDirectory == Returned(false)
    && GetFilename(job.file.remote, job.searchPathLength).Some?
    && ObjectName(GetFilename(job.file.remote, job.searchPathLength).value, u.objectNamePrefix).Some?
  }

  /** Nothing perform asks about `job` fails: it is uploadable and its upload
      succeeds. */
  predicate Good(u: Uploader, job: Job)
  {
    Uploadable(u, job) && job.file.upload == Ok
  }

  /** How a job that is not good stops the walk: a failed listing, isDirectory
      call or upload with its own fault, a directory with an IOException, and a
      file without a relative name or key with the unchecked index exception. */
  function FaultOf(u: Uploader, job: Job): Halt
    requires !Good(u, job)
  {
    match job
    case ListFailed(f) => Thrown(f)
    case Job(n, m) =>
      match m.isDirectory
      case Raised(f) => Thrown(f)
      case Returned(isDirectory) =>
        if isDirectory then Thrown(IOError)
        else if !Uploadable(u, job) then OutOfBounds
        else Thrown(m.upload.fault)
  }

  /** `e` is the upload of `job`: a file, not a directory, put under the key the
      naming rule gives its relative name. */
  predicate IsPutOf(u: Uploader, job: Job, e: Event)
  {
    && job.Job?
    && job.file.isDirectory == Returned(false)
    && GetFilename(job.file.remote, job.searchPathLength).Some?
    && e.Put? && e.bucket == u.bucketName && e.file == job.file.remote
    && ObjectName(GetFilename(job.file.remote, job.searchPathLength).value, u.objectNamePrefix) == Some(e.key)
  }

  /** `line` logs the successful upload of `job`: its relative name, the
      bucket and its key. */
  predicate LoggedAs(u: Uploader, job: Job, line: LogLine)
  {
    && Good(u, job)
    && var fileName := GetFilename(job.file.remote, job.searchPathLength).value;
       line == Uploaded(fileName, u.bucketName, ObjectName(fileName, u.objectNamePrefix).value)
  }

  /** The puts and log lines of `p` follow the listed `jobs`: the k-th put is the
      upload of the k-th job; every put but possibly the last succeeded and is
      logged by one line naming the file, bucket and key; a failed put ends the
      run with its fault; a run that stopped did so at the first job that is not
      good, with that job's fault; and a run that did not stop uploaded every
      job. */
  ghost predicate Follows(u: Uploader, jobs: seq<Job>, p: Progress)
  {
    && PutsFollow(u, jobs, p.trace)
    && LogFollows(u, jobs, p.log)
    && |p.log| <= |p.trace| <= |p.log| + 1
    && StopFollows(u, jobs, p)
  }

  /** The k-th put is the upload of the k-th job. */
  ghost predicate PutsFollow(u: Uploader, jobs: seq<Job>, trace: seq<Event>)
  {
    |trace| <= |jobs| && forall k :: 0 <= k < |trace| ==> IsPutOf(u, jobs[k], trace[k])
  }

  /** The k-th log line logs the upload of the k-th job. */
  ghost predicate LogFollows(u: Uploader, jobs: seq<Job>, log: seq<LogLine>)
  {
    |log| <= |jobs| && forall k :: 0 <= k < |log| ==> LoggedAs(u, jobs[k], log[k])
  }

  /** A stop happened at the first job not logged, which is not good, with
      that job's fault, and after its put exactly when it is uploadable; a run
      that did not stop logged every job. */
  ghost predicate StopFollows(u: Uploader, jobs: seq<Job>, p: Progress)
  {
    && (p.halt.Some? ==>
          && |p.log| < |jobs| && !Good(u, jobs[|p.log|]) && p.halt == Some(FaultOf(u, jobs[|p.log|]))
          && (|p.log| < |p.trace| <==> Uploadable(u, jobs[|p.log|])))
    && (p.halt.None? ==> |p.log| == |jobs|)
  }

  lemma ThenFollows(u: Uploader, ja: seq<Job>, a: Progress, jb: seq<Job>, b: Progress)
    requires Follows(u, ja, a) && Follows(u, jb, b)
    ensures Follows(u, ja + jb, Then(a, b))
  {
    if a.halt.Some? {
      StoppedFollows(u, ja, a, jb);
    } else {
      assert |a.trace| == |a.log| == |ja|;
      assert Then(a, b) == Progress(a.trace + b.trace, a.log + b.log, b.halt);
      PutsFollowAppend(u, ja, a.trace, jb, b.trace);
      LogFollowsAppend(u, ja, a.log, jb, b.log);
      StopFollowsAfter(u, ja, a, jb, b);
    }
  }

  lemma PutsFollowAppend(u: Uploader, ja: seq<Job>, ta: seq<Event>, jb: seq<Job>, tb: seq<Event>)
    requires |ta| == |ja| && PutsFollow(u, ja, ta) && PutsFollow(u, jb, tb)
    ensures PutsFollow(u, ja + jb, ta + tb)
  {
    PairwiseAppend((j: Job, e: Event) => IsPutOf(u, j, e), ja, ta, jb, tb);
  }

  lemma LogFollowsAppend(u: Uploader, ja: seq<Job>, la: seq<LogLine>, jb: seq<Job>, lb: seq<LogLine>)
    requires |la| == |ja| && LogFollows(u, ja, la) && LogFollows(u, jb, lb)
    ensures LogFollows(u, ja + jb, la + lb)
  {
    PairwiseAppend((j: Job, line: LogLine) => LoggedAs(u, j, line), ja, la, jb, lb);
  }

  /** A walk over `jb` placed after a finished walk over `ja` stops at the
      same job of `ja + jb`. */
  lemma StopFollowsAfter(u: Uploader, ja: seq<Job>, a: Progress, jb: seq<Job>, b: Progress)
    requires |a.trace| == |a.log| == |ja| && a.halt.None?
    requires StopFollows(u, jb, b) && |b.log| <= |b.trace|
    ensures StopFollows(u, ja + jb, Progress(a.trace + b.trace, a.log + b.log, b.halt))
  {
    if b.halt.Some? {
      assert (ja + jb)[|ja| + |b.log|] == jb[|b.log|];
    }
  }

  lemma StoppedFollows(u: Uploader, ja: seq<Job>, a: Progress, jb: seq<Job>)
    requires Follows(u, ja, a) && a.halt.Some?
    ensures Follows(u, ja + jb, a)
  {
    assert forall k :: 0 <= k < |ja| ==> (ja + jb)[k] == ja[k];
  }

  /** A relation that holds index by index between two pairs of sequences
      holds index by index between their concatenations. */
  lemma PairwiseAppend<A, B>(rel: (A, B) -> bool, xa: seq<A>, ya: seq<B>, xb: seq<A>, yb: seq<B>)
    requires |ya| == |xa| && |yb| <= |xb|
    requires forall k :: 0 <= k < |ya| ==> rel(xa[k], ya[k])
    requires forall k :: 0 <= k < |yb| ==> rel(xb[k], yb[k])
    ensures forall k :: 0 <= k < |ya + yb| ==> rel((xa + xb)[k], (ya + yb)[k])
  {
    forall k | 0 <= k < |ya + yb|
      ensures rel((xa + xb)[k], (ya + yb)[k])
    {
      if k >= |ya| {
        assert (xa + xb)[k] == xb[k - |ya|] && (ya + yb)[k] == yb[k - |ya|];
      } else {
        assert (xa + xb)[k] == xa[k] && (ya + yb)[k] == ya[k];
      }
    }
  }

  lemma {:induction false} MatchesFollow(u: Uploader, n: int, ms: seq<Match>)
    ensures Follows(u, JobsOf(n, ms), MatchesStep(u, n, ms))
  {
    if ms != [] {
      var init, last := ms[..|ms| - 1], ms[|ms| - 1];
      assert JobsOf(n, ms) == JobsOf(n, init) + [Job(n, last)];
      assert Follows(u, JobsOf(n, init), MatchesStep(u, n, init)) by {
        MatchesFollow(u, n, init);
      }
      FileFollows(u, n, last);
      ThenFollows(u, JobsOf(n, init), MatchesStep(u, n, init), [Job(n, last)], FileStep(u, n, last));
    }
  }

  /** One match is uploaded under its key and logged, or stops the walk. */
  lemma FileFollows(u: Uploader, n: int, m: Match)
    ensures Follows(u, [Job(n, m)], FileStep(u, n, m))
  {
    var job := Job(n, m);
    var p := FileStep(u, n, m);
    if p.trace != [] {
      assert IsPutOf(u, job, p.trace[0]);
      if p.log != [] {
        assert LoggedAs(u, job, p.log[0]);
      }
    }
    assert p.halt.None? <==> Good(u, job);
    if p.halt.Some? {
      assert p.halt == Some(FaultOf(u, job));
    }
  }

  /** The walk over the patterns uploads the listed files in order, each under
      its key, logs each success, and stops at the first fault. */
  lemma {:induction false} PatternsFollow(u: Uploader, env: Env, ps: seq<string>)
    ensures Follows(u, Listed(env, ps), PatternsStep(u, env, ps))
  {
    if ps != [] {
      var init := ps[..|ps| - 1];
      var p := ps[|ps| - 1];
      PatternsFollow(u, env, init);
      var jobs := match env.list(p)
        case Raised(f) => [ListFailed(f)]
        case Returned(ms) => JobsOf(env.searchPathLength(Trim(p)), ms);
      assert Listed(env, ps) == Listed(env, init) + jobs;
      PatternFollows(u, env, p);
      ThenFollows(u, Listed(env, init), PatternsStep(u, env, init), jobs, PatternStep(u, env, p));
    }
  }

  lemma PatternFollows(u: Uploader, env: Env, p: string)
    ensures Follows(u, match env.list(p)
                         case Raised(f) => [ListFailed(f)]
                         case Returned(ms) => JobsOf(env.searchPathLength(Trim(p)), ms),
                    PatternStep(u, env, p))
  {
    if env.list(p).Returned? {
      MatchesFollow(u, env.searchPathLength(Trim(p)), env.list(p).value);
    }
  }

  /** The walk never raises a region conflict: only makeBucket does. */
  lemma {:induction false} PatternsNoConflict(u: Uploader, env: Env, ps: seq<string>)
    ensures PatternsStep(u, env, ps).halt != Some(Thrown(RegionConflict))
  {
    if ps != [] {
      var init, p := ps[..|ps| - 1], ps[|ps| - 1];
      PatternsNoConflict(u, env, init);
      PatternNoConflict(u, env, p);
      assert PatternsStep(u, env, ps) == Then(PatternsStep(u, env, init), PatternStep(u, env, p));
    }
  }

  lemma PatternNoConflict(u: Uploader, env: Env, p: string)
    ensures PatternStep(u, env, p).halt != Some(Thrown(RegionConflict))
  {
    match env.list(p)
    case Raised(f) =>
      assert PatternStep(u, env, p).halt == Some(Thrown(f));
    case Returned(ms) =>
      MatchesNoConflict(u, env.searchPathLength(Trim(p)), ms);
  }

  /** A walk that does not stop early got an answer from every listing. */
  lemma {:induction false} PatternsListed(u: Uploader, env: Env, ps: seq<string>)
    ensures PatternsStep(u, env, ps).halt.None? ==> forall p :: p in ps ==> Lists(env, p)
  {
    if ps != [] {
      var init, last := ps[..|ps| - 1], ps[|ps| - 1];
      assert ps == init + [last];
      if PatternsStep(u, env, ps).halt.None? {
        var a, b := PatternsStep(u, env, init), PatternStep(u, env, last);
        assert a.halt.None? && b.halt.None? by {
          assert PatternsStep(u, env, ps) == Then(a, b);
          ThenGoesOn(a, b);
        }
        assert forall p :: p in init ==> Lists(env, p) by {
          PatternsListed(u, env, init);
        }
        assert Lists(env, last) by {
          PatternListed(u, env, last);
        }
      }
    }
  }

  lemma PatternListed(u: Uploader, env: Env, p: string)
    ensures PatternStep(u, env, p).halt.None? ==> Lists(env, p)
  {
  }

  /** The host's listing of `p` returns. */
  predicate Lists(env: Env, p: string)
  {
    env.list(p).Returned?
  }

  lemma ThenGoesOn(a: Progress, b: Progress)
    requires Then(a, b).halt.None?
    ensures a.halt.None? && b.halt.None?
  {
  }

  lemma {:induction false} MatchesNoConflict(u: Uploader, n: int, ms: seq<Match>)
    ensures MatchesStep(u, n, ms).halt != Some(Thrown(RegionConflict))
  {
    if ms != [] {
      MatchesNoConflict(u, n, ms[..|ms| - 1]);
      FileNoConflict(u, n, ms[|ms| - 1]);
    }
  }

  lemma FileNoConflict(u: Uploader, n: int, m: Match)
    ensures FileStep(u, n, m).halt != Some(Thrown(RegionConflict))
  {
    if m.isDirectory == Returned(false) {
      var name := GetFilename(m.remote, n);
      if name.Some? && ObjectName(name.value, u.objectNamePrefix).Some? {
        assert FileStep(u, n, m).halt.None? || FileStep(u, n, m).halt == Some(Thrown(m.upload.fault));
      }
    }
  }

  // ----- What perform does, as a whole -----

  /** The bucket is there once bucketExists and makeBucket have answered. */
  predicate BucketReady(env: Env)
  {
    env.bucketExists == Returned(true) || (env.bucketExists == Returned(false) && env.makeBucket == Ok)
  }

  /** The uploads in a trace, in order. */
  function Puts(trace: seq<Event>): (r: seq<Event>)
    ensures forall k :: 0 <= k < |r| ==> r[k].Put?
    ensures |r| <= |trace|
  {
    if trace == [] then []
    else Puts(trace[..|trace| - 1]) + if trace[|trace| - 1].Put? then [trace[|trace| - 1]] else []
  }

  /** The lines of a log that report an uploaded file, in order. */
  function Uploads(log: seq<LogLine>): (r: seq<LogLine>)
    ensures forall k :: 0 <= k < |r| ==> r[k].Uploaded?
    ensures |r| <= |log|
  {
    if log == [] then []
    else Uploads(log[..|log| - 1]) + if log[|log| - 1].Uploaded? then [log[|log| - 1]] else []
  }

  lemma {:induction false} PutsAppend(a: seq<Event>, b: seq<Event>)
    ensures Puts(a + b) == Puts(a) + Puts(b)
  {
    if b != [] {
      assert (a + b)[..|a + b| - 1] == a + b[..|b| - 1];
      PutsAppend(a, b[..|b| - 1]);
    } else {
      assert a + b == a;
    }
  }

  lemma {:induction false} PutsOfPuts(t: seq<Event>)
    requires forall k :: 0 <= k < |t| ==> t[k].Put?
    ensures Puts(t) == t
  {
    if t != [] {
      PutsOfPuts(t[..|t| - 1]);
    }
  }

  lemma {:induction false} UploadsOfUploads(l: seq<LogLine>)
    requires forall k :: 0 <= k < |l| ==> l[k].Uploaded?
    ensures Uploads(l) == l
  {
    if l != [] {
      UploadsOfUploads(l[..|l| - 1]);
    }
  }

  /** Where the `try` block stopped, read off perform's exit. */
  function HaltOf(exit: Exit): Option<Halt>
  {
    match exit
    case Caught(f) => Some(Thrown(f))
    case Escaped => Some(OutOfBounds)
    case _ => None
  }

  /** The uploads perform makes and the lines it logs for them follow the
      files the host lists, pattern by pattern and match by match: the k-th put
      uploads the k-th listed file, which is no directory, under the key the
      naming rule gives; each successful put is logged once with its file name,
      bucket and key; the run stops at the first listed job that is not good,
      with that job's fault; and a run that ends normally has uploaded every
      listed file. (When the bucket is not ready, `BucketFaultEndsRun` says how
      the run ends.) */
  lemma UploadsFollowListing(u: Uploader, env: Env, incoming: Option<BuildResult>)
    requires Publishes(env, incoming)
    ensures var r := Outcome(u, env, incoming);
            BucketReady(env) ==>
              Follows(u, Listed(env, Patterns(env)), Progress(Puts(r.trace), Uploads(r.log), HaltOf(r.exit)))
  {
    var b := BucketStep(u, env);
    var w := PatternsStep(u, env, Patterns(env));
    PublishedOutcome(u, env, incoming);
    if b.halt.None? {
      BucketCallsNoPuts(b.trace, u.bucketName);
      PatternsFollow(u, env, Patterns(env));
      WalkPutsOnly(u, env, Patterns(env));
      WalkLogsOnly(u, env, Patterns(env));
      FinishOfWalk(b.trace, w);
    }
  }

  /** When bucketExists or makeBucket throws, that fault ends the run: the
      calls are the bucket step's, nothing is uploaded, and one error line is
      written. */
  lemma BucketFaultEndsRun(u: Uploader, env: Env, incoming: Option<BuildResult>)
    requires Publishes(env, incoming) && !BucketReady(env)
    ensures var r := Outcome(u, env, incoming);
            && r.exit == Caught(if env.bucketExists.Raised? then env.bucketExists.fault else env.makeBucket.fault)
            && r.trace == (if env.bucketExists.Raised? then [] else [MakeBucket(u.bucketName)])
            && r.log == [Error(r.exit.fault)]
  {
    var b := BucketStep(u, env);
    PublishedOutcome(u, env, incoming);
    assert Then(b, PatternsStep(u, env, Patterns(env))) == b;
    assert Finish(b).log == [] + [Error(b.halt.value.fault)];
  }

  /** The first listed job that is not good decides how perform ends: the jobs
      before it are uploaded and logged, nothing after it is, and its fault is
      the exit. A checked fault there marks the build unstable. */
  lemma FirstFaultEndsRun(u: Uploader, env: Env, incoming: Option<BuildResult>, k: nat)
    requires Publishes(env, incoming) && BucketReady(env)
    requires k < |Listed(env, Patterns(env))|
    requires forall i :: 0 <= i < k ==> Good(u, Listed(env, Patterns(env))[i])
    requires !Good(u, Listed(env, Patterns(env))[k])
    ensures var r := Outcome(u, env, incoming);
            && HaltOf(r.exit) == Some(FaultOf(u, Listed(env, Patterns(env))[k]))
            && |Uploads(r.log)| == k
            && |Puts(r.trace)| == (if Uploadable(u, Listed(env, Patterns(env))[k]) then k + 1 else k)
            && (r.exit.Caught? ==> ResultAfter(incoming, r.exit) == Some(Unstable))
  {
    var jobs := Listed(env, Patterns(env));
    var r := Outcome(u, env, incoming);
    var q := Progress(Puts(r.trace), Uploads(r.log), HaltOf(r.exit));
    UploadsFollowListing(u, env, incoming);
    assert Follows(u, jobs, q);
    StopsAtFirstFault(u, jobs, q, k);
    FaultIsHostFault(u, jobs[k]);
  }

  /** In a walk that follows `jobs`, the first job that is not good is where
      the walk stopped. */
  lemma StopsAtFirstFault(u: Uploader, jobs: seq<Job>, q: Progress, k: nat)
    requires Follows(u, jobs, q)
    requires k < |jobs|
    requires forall i :: 0 <= i < k ==> Good(u, jobs[i])
    requires !Good(u, jobs[k])
    ensures q.halt == Some(FaultOf(u, jobs[k])) && |q.log| == k
    ensures |q.trace| == if Uploadable(u, jobs[k]) then k + 1 else k
  {
    StopsByFault(u, jobs, q, k);
    assert |q.log| == k;
    if |q.trace| > k {
      assert IsPutOf(u, jobs[k], q.trace[k]);
    }
  }

  /** In a walk that follows `jobs`, a job that is not good is never passed:
      the walk stops at it or before, and has put it only if it is uploadable. */
  lemma StopsByFault(u: Uploader, jobs: seq<Job>, q: Progress, k: nat)
    requires Follows(u, jobs, q)
    requires k < |jobs| && !Good(u, jobs[k])
    ensures q.halt.Some? && |q.log| <= k
    ensures |q.trace| <= if Uploadable(u, jobs[k]) then k + 1 else k
  {
    assert forall i :: 0 <= i < |q.log| ==> Good(u, jobs[i]);
    assert forall i :: 0 <= i < |q.trace| ==> Uploadable(u, jobs[i]);
  }

  /** A job stops the walk only with a host fault or the unchecked exception,
      never with a Minio fault or a region conflict. */
  lemma FaultIsHostFault(u: Uploader, job: Job)
    requires !Good(u, job)
    ensures FaultOf(u, job) == OutOfBounds || FaultOf(u, job) == Thrown(IOError) || FaultOf(u, job) == Thrown(Interrupted)
  {
  }

  /** A directory that is the first job not good ends the run with an
      IOException, and the build becomes unstable. */
  lemma DirectoryMarksUnstable(u: Uploader, env: Env, incoming: Option<BuildResult>, k: nat)
    requires Publishes(env, incoming) && BucketReady(env)
    requires k < |Listed(env, Patterns(env))|
    requires forall i :: 0 <= i < k ==> Good(u, Listed(env, Patterns(env))[i])
    requires Listed(env, Patterns(env))[k].Job?
    requires Listed(env, Patterns(env))[k].file.isDirectory == Returned(true)
    ensures var r := Outcome(u, env, incoming);
            && r.exit == Caught(IOError)
            && ResultAfter(incoming, r.exit) == Some(Unstable)
            && |Puts(r.trace)| == k && |Uploads(r.log)| == k
  {
    FirstFaultEndsRun(u, env, incoming, k);
  }

  /** An upload that fails on the first job not good ends the run with the
      upload's fault after its put, and the build becomes unstable. */
  lemma FailedUploadMarksUnstable(u: Uploader, env: Env, incoming: Option<BuildResult>, k: nat)
    requires Publishes(env, incoming) && BucketReady(env)
    requires k < |Listed(env, Patterns(env))|
    requires forall i :: 0 <= i < k ==> Good(u, Listed(env, Patterns(env))[i])
    requires Uploadable(u, Listed(env, Patterns(env))[k])
    requires Listed(env, Patterns(env))[k].file.upload.Threw?
    ensures var r := Outcome(u, env, incoming);
            && r.exit == Caught(Listed(env, Patterns(env))[k].file.upload.fault)
            && ResultAfter(incoming, r.exit) == Some(Unstable)
            && |Puts(r.trace)| == k + 1 && |Uploads(r.log)| == k
  {
    FirstFaultEndsRun(u, env, incoming, k);
  }

  /** When the bucket is ready and every listed job is good, perform completes
      and leaves the build result alone. */
  lemma GoodRunCompletes(u: Uploader, env: Env, incoming: Option<BuildResult>)
    requires Publishes(env, incoming) && BucketReady(env)
    requires forall i :: 0 <= i < |Listed(env, Patterns(env))| ==> Good(u, Listed(env, Patterns(env))[i])
    ensures Outcome(u, env, incoming).exit == Completed
    ensures ResultAfter(incoming, Outcome(u, env, incoming).exit) == incoming
  {
    var r := Outcome(u, env, incoming);
    UploadsFollowListing(u, env, incoming);
    assert HaltOf(r.exit).None?;
  }

  lemma FinishOfWalk(calls: seq<Event>, w: Progress)
    requires Puts(calls) == []
    requires forall k :: 0 <= k < |w.trace| ==> w.trace[k].Put?
    requires forall k :: 0 <= k < |w.log| ==> w.log[k].Uploaded?
    ensures var r := Finish(Then(Progress(calls, [], None), w));
            Progress(Puts(r.trace), Uploads(r.log), HaltOf(r.exit)) == w
  {
    var r := Finish(Then(Progress(calls, [], None), w));
    WalkTracePuts(calls, w);
    WalkLogUploads(calls, w);
    assert HaltOf(r.exit) == w.halt;
  }

  lemma WalkTracePuts(calls: seq<Event>, w: Progress)
    requires Puts(calls) == []
    requires forall k :: 0 <= k < |w.trace| ==> w.trace[k].Put?
    ensures Puts(Finish(Then(Progress(calls, [], None), w)).trace) == w.trace
  {
    var c := Then(Progress(calls, [], None), w);
    assert c.trace == calls + w.trace;
    assert Finish(c).trace == c.trace;
    PutsAppend(calls, w.trace);
    PutsOfPuts(w.trace);
  }

  lemma WalkLogUploads(calls: seq<Event>, w: Progress)
    requires forall k :: 0 <= k < |w.log| ==> w.log[k].Uploaded?
    ensures Uploads(Finish(Then(Progress(calls, [], None), w)).log) == w.log
  {
    var c := Then(Progress(calls, [], None), w);
    assert c.log == w.log;
    assert c.halt == w.halt;
    UploadsOfUploads(w.log);
    if c.halt.Some? && c.halt.value.Thrown? {
      UploadsSkipError(w.log, c.halt.value.fault);
    }
  }

  lemma UploadsSkipError(log: seq<LogLine>, f: Fault)
    ensures Uploads(log + [Error(f)]) == Uploads(log)
  {
    assert (log + [Error(f)])[..|log|] == log;
  }

  /** makeBucket is called at most once, first, only after bucketExists said
      the bucket is absent, and nothing is uploaded unless the bucket exists or
      was made. */
  lemma BucketComesFirst(u: Uploader, env: Env, incoming: Option<BuildResult>)
    ensures var r := Outcome(u, env, incoming);
            && (forall k :: 0 < k < |r.trace| ==> r.trace[k].Put?)
            && ((r.trace != [] && r.trace[0].MakeBucket?)
                  <==> Publishes(env, incoming) && env.bucketExists == Returned(false))
            && (r.trace != [] && r.trace[0].MakeBucket? ==> r.trace[0] == MakeBucket(u.bucketName))
            && (Puts(r.trace) != [] ==> Publishes(env, incoming) && BucketReady(env))
  {
    OnlyFirstCallMakesBucket(u, env, incoming);
    PutsNeedBucket(u, env, incoming);
  }

  lemma OnlyFirstCallMakesBucket(u: Uploader, env: Env, incoming: Option<BuildResult>)
    ensures var t := Outcome(u, env, incoming).trace;
            && (forall k :: 0 < k < |t| ==> t[k].Put?)
            && ((t != [] && t[0].MakeBucket?) <==> Publishes(env, incoming) && env.bucketExists == Returned(false))
            && (t != [] && t[0].MakeBucket? ==> t[0] == MakeBucket(u.bucketName))
  {
    OutcomeTrace(u, env, incoming);
    if Publishes(env, incoming) && BucketStep(u, env).halt.None? {
      WalkPutsOnly(u, env, Patterns(env));
      WalkTraceFollows(BucketStep(u, env).trace, PatternsStep(u, env, Patterns(env)).trace);
    }
  }

  lemma PutsNeedBucket(u: Uploader, env: Env, incoming: Option<BuildResult>)
    ensures Puts(Outcome(u, env, incoming).trace) != [] ==> Publishes(env, incoming) && BucketReady(env)
  {
    OutcomeTrace(u, env, incoming);
    if Publishes(env, incoming) {
      var b := BucketStep(u, env);
      if b.halt.Some? {
        BucketCallsNoPuts(b.trace, u.bucketName);
      }
    }
  }

  lemma BucketCallsNoPuts(calls: seq<Event>, bucket: string)
    requires calls == [] || calls == [MakeBucket(bucket)]
    ensures Puts(calls) == []
  {
    assert calls == [] || calls == [] + [MakeBucket(bucket)];
  }

  /** Past the null check, perform is the bucket step followed by the walk. */
  lemma PublishedOutcome(u: Uploader, env: Env, incoming: Option<BuildResult>)
    requires Publishes(env, incoming)
    ensures Outcome(u, env, incoming) == Finish(Then(BucketStep(u, env), PatternsStep(u, env, Patterns(env))))
  {
  }

  /** The calls perform makes: none when it stops before the `try` block's
      bucket step, else the bucket step's, then the walk's if the bucket is ready. */
  lemma OutcomeTrace(u: Uploader, env: Env, incoming: Option<BuildResult>)
    ensures Outcome(u, env, incoming).trace
         == if !Publishes(env, incoming) then []
            else if BucketStep(u, env).halt.Some? then BucketStep(u, env).trace
            else BucketStep(u, env).trace + PatternsStep(u, env, Patterns(env)).trace
  {
    if Publishes(env, incoming) {
      PublishedOutcome(u, env, incoming);
    }
  }

  /** The walk over the patterns calls nothing but puts. */
  lemma WalkPutsOnly(u: Uploader, env: Env, ps: seq<string>)
    ensures forall k :: 0 <= k < |PatternsStep(u, env, ps).trace| ==> PatternsStep(u, env, ps).trace[k].Put?
  {
    PatternsFollow(u, env, ps);
  }

  /** The walk over the patterns writes nothing but upload lines. */
  lemma WalkLogsOnly(u: Uploader, env: Env, ps: seq<string>)
    ensures forall k :: 0 <= k < |PatternsStep(u, env, ps).log| ==> PatternsStep(u, env, ps).log[k].Uploaded?
  {
    PatternsFollow(u, env, ps);
  }

  lemma WalkTraceFollows(calls: seq<Event>, walk: seq<Event>)
    requires calls == [] || (|calls| == 1 && calls[0].MakeBucket?)
    requires forall k :: 0 <= k < |walk| ==> walk[k].Put?
    ensures forall k :: 0 < k < |calls + walk| ==> (calls + walk)[k].Put?
    ensures calls + walk != [] && (calls + walk)[0].MakeBucket? <==> calls != []
  {
    if calls != [] {
      assert forall k :: 0 < k < |calls + walk| ==> (calls + walk)[k] == walk[k - 1];
    } else {
      assert calls + walk == walk;
    }
  }

  /** A directory among the listed files stops the uploads before it: nothing
      at or after it is uploaded and the run does not complete. */
  lemma DirectoryStopsUploads(u: Uploader, env: Env, incoming: Option<BuildResult>, k: nat)
    requires Publishes(env, incoming)
    requires k < |Listed(env, Patterns(env))|
    requires Listed(env, Patterns(env))[k].Job?
    requires Listed(env, Patterns(env))[k].file.isDirectory == Returned(true)
    ensures |Puts(Outcome(u, env, incoming).trace)| <= k
    ensures Outcome(u, env, incoming).exit != Completed
  {
    NotGoodStops(u, env, incoming, k);
  }

  /** A failed upload stops the run: no later file is uploaded, the file is not
      logged as uploaded, and the run does not complete. */
  lemma FailedUploadStops(u: Uploader, env: Env, incoming: Option<BuildResult>, k: nat)
    requires Publishes(env, incoming)
    requires k < |Listed(env, Patterns(env))|
    requires Listed(env, Patterns(env))[k].Job?
    requires Listed(env, Patterns(env))[k].file.upload.Threw?
    ensures |Puts(Outcome(u, env, incoming).trace)| <= k + 1
    ensures |Uploads(Outcome(u, env, incoming).log)| <= k
    ensures Outcome(u, env, incoming).exit != Completed
  {
    NotGoodStops(u, env, incoming, k);
  }

  lemma NotGoodStops(u: Uploader, env: Env, incoming: Option<BuildResult>, k: nat)
    requires Publishes(env, incoming)
    requires k < |Listed(env, Patterns(env))| && !Good(u, Listed(env, Patterns(env))[k])
    ensures var r := Outcome(u, env, incoming);
            && |Puts(r.trace)| <= (if Uploadable(u, Listed(env, Patterns(env))[k]) then k + 1 else k)
            && |Uploads(r.log)| <= k
            && r.exit != Completed
  {
    if BucketReady(env) {
      var r := Outcome(u, env, incoming);
      UploadsFollowListing(u, env, incoming);
      StopsByFault(u, Listed(env, Patterns(env)), Progress(Puts(r.trace), Uploads(r.log), HaltOf(r.exit)), k);
    } else {
      BucketFaultNoUploads(u, env, incoming);
    }
  }

  /** A run whose bucket step fails uploads and logs no file. */
  lemma BucketFaultNoUploads(u: Uploader, env: Env, incoming: Option<BuildResult>)
    requires Publishes(env, incoming) && !BucketReady(env)
    ensures var r := Outcome(u, env, incoming);
            Puts(r.trace) == [] && Uploads(r.log) == [] && r.exit.Caught?
  {
    var r := Outcome(u, env, incoming);
    BucketFaultEndsRun(u, env, incoming);
    BucketCallsNoPuts(r.trace, u.bucketName);
    assert r.log == [] + [Error(r.exit.fault)];
  }

  /** A run that completes made it past every call: the bucket is there, every
      listing answered, every listed job is good, and every listed file was
      uploaded and logged. `GoodRunCompletes` is the converse. */
  lemma CompletedUploadsEverything(u: Uploader, env: Env, incoming: Option<BuildResult>)
    requires Outcome(u, env, incoming).exit == Completed
    ensures Publishes(env, incoming) && BucketReady(env)
    ensures forall p :: p in Patterns(env) ==> Lists(env, p)
    ensures |Puts(Outcome(u, env, incoming).trace)| == |Listed(env, Patterns(env))|
    ensures |Uploads(Outcome(u, env, incoming).log)| == |Listed(env, Patterns(env))|
    ensures forall i :: 0 <= i < |Listed(env, Patterns(env))| ==> Good(u, Listed(env, Patterns(env))[i])
  {
    CompletedPublishes(u, env, incoming);
    PatternsListed(u, env, Patterns(env));
    var r := Outcome(u, env, incoming);
    var q := Progress(Puts(r.trace), Uploads(r.log), HaltOf(r.exit));
    assert Follows(u, Listed(env, Patterns(env)), q) by {
      UploadsFollowListing(u, env, incoming);
    }
    FinishedFollows(u, Listed(env, Patterns(env)), q);
  }

  /** A walk that follows `jobs` and did not stop put and logged every job,
      and every job is good. */
  lemma FinishedFollows(u: Uploader, jobs: seq<Job>, q: Progress)
    requires Follows(u, jobs, q) && q.halt.None?
    ensures |q.trace| == |q.log| == |jobs|
    ensures forall i :: 0 <= i < |jobs| ==> Good(u, jobs[i])
  {
    assert forall i :: 0 <= i < |q.log| ==> LoggedAs(u, jobs[i], q.log[i]);
  }

  lemma CompletedPublishes(u: Uploader, env: Env, incoming: Option<BuildResult>)
    requires Outcome(u, env, incoming).exit == Completed
    ensures Publishes(env, incoming) && BucketReady(env)
    ensures PatternsStep(u, env, Patterns(env)).halt.None?
  {
    var b := BucketStep(u, env);
    var w := PatternsStep(u, env, Patterns(env));
    assert Body(u, env) == Then(b, w);
  }

  /** A region conflict can only come from makeBucket: then nothing is
      uploaded, one error line is written and the build result is left alone. */
  lemma RegionConflictLeavesResult(u: Uploader, env: Env, incoming: Option<BuildResult>)
    ensures var r := Outcome(u, env, incoming);
            r.exit == Caught(RegionConflict) ==>
              && r.trace == [MakeBucket(u.bucketName)]
              && r.log == [Error(RegionConflict)]
              && ResultAfter(incoming, r.exit) == incoming
  {
    if Publishes(env, incoming) {
      if BucketReady(env) {
        ReadyNoConflict(u, env, incoming);
      } else {
        BucketConflict(u, env, incoming);
      }
    }
  }

  /** A region conflict in the bucket step comes from makeBucket, after its
      one call. */
  lemma BucketConflict(u: Uploader, env: Env, incoming: Option<BuildResult>)
    requires Publishes(env, incoming) && !BucketReady(env)
    ensures var r := Outcome(u, env, incoming);
            r.exit == Caught(RegionConflict) ==>
              r.trace == [MakeBucket(u.bucketName)] && r.log == [Error(RegionConflict)]
  {
    var r := Outcome(u, env, incoming);
    BucketFaultEndsRun(u, env, incoming);
    if env.bucketExists.Raised? {
      assert r.exit != Caught(RegionConflict);
    } else {
      assert r.trace == [MakeBucket(u.bucketName)];
    }
  }

  /** Once the bucket is ready, no call perform makes can raise a region
      conflict. */
  lemma ReadyNoConflict(u: Uploader, env: Env, incoming: Option<BuildResult>)
    requires Publishes(env, incoming) && BucketReady(env)
    ensures Outcome(u, env, incoming).exit != Caught(RegionConflict)
  {
    var b := BucketStep(u, env);
    var w := PatternsStep(u, env, Patterns(env));
    PublishedOutcome(u, env, incoming);
    PatternsNoConflict(u, env, Patterns(env));
    assert Then(b, w).halt == w.halt;
  }
}
