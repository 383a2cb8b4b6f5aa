/** `perform` written as the source writes it: a build object whose result the
    catch clauses update, and two nested loops over the patterns and their
    matches that stop at the first fault. Each method is proved to compute the
    matching function of module `Upload`. */
module Perform {

  import opened Wrappers
  import opened JavaStrings
  import opened ObjectNames
  import opened Upload

  /** The build being published; `result` is `None` while it has none. */
  class Run {
    var result: Option<BuildResult>

    constructor (result: Option<BuildResult>)
      ensures this.result == result
    {
      this.result := result;
    }
  }

  /** The publishing step: skip an aborted or failed build, run the `try` block
      and map what it threw to the build result. */
  method Perform(u: Uploader, run: Run, env: Env) returns (trace: seq<Event>, log: seq<LogLine>, exit: Exit)
    modifies run
    ensures Report(trace, log, exit) == Outcome(u, env, old(run.result))
    ensures run.result == ResultAfter(old(run.result), exit)
  {
    if run.result == Some(Aborted) {
      return [], [Skip(BuildAborted)], Skipped;
    }
    if run.result == Some(Failure) {
      return [], [Skip(BuildFailed)], Skipped;
    }
    var p := TryUpload(u, env);
    trace, log := p.trace, p.log;
    match p.halt
    case None =>
      exit := Completed;
    case Some(OutOfBounds) =>
      exit := Escaped;
    case Some(Thrown(f)) =>
      log := log + [Error(f)];
      exit := Caught(f);
      match f
      case MinioError => run.result := Some(Unstable);
      case IOError => run.result := Some(Unstable);
      case Interrupted => run.result := Some(Unstable);
      case RegionConflict =>
  }

  /** The `try` block: environment, null check, bucket, then the loop over
      the patterns. */
  method TryUpload(u: Uploader, env: Env) returns (p: Progress)
    ensures p == Body(u, env)
  {
    if env.environment.Threw? {
      return Stop(Thrown(env.environment.fault));
    }
    if env.expanded.None? {
      return Stop(Thrown(IOError));
    }
    var patterns := Split(env.expanded.value, ',');
    assert Body(u, env) == Then(BucketStep(u, env), PatternsStep(u, env, patterns));
    var bucket := EnsureBucket(u, env);
    if bucket.halt.Some? {
      return bucket;
    }
    var walk := UploadPatterns(u, env, patterns);
    BucketThen(bucket, walk);
    p := Progress(bucket.trace + walk.trace, walk.log, walk.halt);
  }

  /** bucketExists, then makeBucket when the bucket is absent. */
  method EnsureBucket(u: Uploader, env: Env) returns (p: Progress)
    ensures p == BucketStep(u, env)
  {
    match env.bucketExists
    case Raised(f) =>
      return Stop(Thrown(f));
    case Returned(bucketFound) =>
      if bucketFound {
        return Nothing();
      }
      match env.makeBucket
      case Threw(f) =>
        return Progress([MakeBucket(u.bucketName)], [], Some(Thrown(f)));
      case Ok =>
        return Progress([MakeBucket(u.bucketName)], [], None);
  }

  /** The outer loop: each pattern in turn, stopping at the first fault. */
  method UploadPatterns(u: Uploader, env: Env, patterns: seq<string>) returns (p: Progress)
    ensures p == PatternsStep(u, env, patterns)
  {
    var trace: seq<Event> := [];
    var log: seq<LogLine> := [];
    var i := 0;
    while i < |patterns|
      invariant 0 <= i <= |patterns|
      invariant PatternsStep(u, env, patterns[..i]) == Progress(trace, log, None)
    {
      var step := UploadPattern(u, env, patterns[i]);
      PatternsGrow(u, env, patterns, i, Progress(trace, log, None), step);
      trace, log := trace + step.trace, log + step.log;
      if step.halt.Some? {
        PatternsStopped(u, env, patterns, i + 1);
        return Progress(trace, log, step.halt);
      }
      i := i + 1;
    }
    assert patterns[..i] == patterns;
    p := Progress(trace, log, None);
  }

  /** One pass of the outer loop: list the pattern's matches and upload each in
      turn, stopping at the first fault. */
  method UploadPattern(u: Uploader, env: Env, startPath: string) returns (p: Progress)
    ensures p == PatternStep(u, env, startPath)
  {
    var listing := env.list(startPath);
    if listing.Raised? {
      return Stop(Thrown(listing.fault));
    }
    var matches := listing.value;
    var searchPathLength := env.searchPathLength(Trim(startPath));
    assert PatternStep(u, env, startPath) == MatchesStep(u, searchPathLength, matches);
    var trace: seq<Event> := [];
    var log: seq<LogLine> := [];
    var j := 0;
    while j < |matches|
      invariant 0 <= j <= |matches|
      invariant MatchesStep(u, searchPathLength, matches[..j]) == Progress(trace, log, None)
    {
      var step := UploadFile(u, searchPathLength, matches[j]);
      MatchesGrow(u, searchPathLength, matches, j, Progress(trace, log, None), step);
      trace, log := trace + step.trace, log + step.log;
      if step.halt.Some? {
        MatchesStopped(u, searchPathLength, matches, j + 1);
        return Progress(trace, log, step.halt);
      }
      j := j + 1;
    }
    assert matches[..j] == matches;
    p := Progress(trace, log, None);
  }

  /** The body of the inner loop: refuse a directory, name the file, upload it
      and log the upload. */
  method UploadFile(u: Uploader, searchPathLength: int, path: Match) returns (p: Progress)
    ensures p == FileStep(u, searchPathLength, path)
  {
    if path.isDirectory.Raised? {
      return Stop(Thrown(path.isDirectory.fault));
    }
    if path.isDirectory.value {
      return Stop(Thrown(IOError));
    }
    var fileName := GetFilename(path.remote, searchPathLength);
    if fileName.None? {
      return Stop(OutOfBounds);
    }
    var objectName := ObjectName(fileName.value, u.objectNamePrefix);
    if objectName.None? {
      return Stop(OutOfBounds);
    }
    var put := Put(u.bucketName, path.remote, objectName.value);
    if path.upload.Threw? {
      return Progress([put], [], Some(Thrown(path.upload.fault)));
    }
    p := Progress([put], [Uploaded(fileName.value, u.bucketName, objectName.value)], None);
  }

  /** The match at `j` extends the walk over `ms[..j]`. */
  lemma MatchesGrow(u: Uploader, n: int, ms: seq<Match>, j: nat, done: Progress, step: Progress)
    requires j < |ms| && done.halt.None?
    requires MatchesStep(u, n, ms[..j]) == done && step == FileStep(u, n, ms[j])
    ensures MatchesStep(u, n, ms[..j + 1]) == Progress(done.trace + step.trace, done.log + step.log, step.halt)
  {
    MatchesNext(u, n, ms, j);
  }

  lemma MatchesNext(u: Uploader, n: int, ms: seq<Match>, j: nat)
    requires j < |ms|
    ensures MatchesStep(u, n, ms[..j + 1]) == Then(MatchesStep(u, n, ms[..j]), FileStep(u, n, ms[j]))
  {
    assert ms[..j + 1][..j] == ms[..j];
  }

  lemma PatternsGrow(u: Uploader, env: Env, ps: seq<string>, i: nat, done: Progress, step: Progress)
    requires i < |ps| && done.halt.None?
    requires PatternsStep(u, env, ps[..i]) == done && step == PatternStep(u, env, ps[i])
    ensures PatternsStep(u, env, ps[..i + 1]) == Progress(done.trace + step.trace, done.log + step.log, step.halt)
  {
    PatternsNext(u, env, ps, i);
  }

  lemma PatternsNext(u: Uploader, env: Env, ps: seq<string>, i: nat)
    requires i < |ps|
    ensures PatternsStep(u, env, ps[..i + 1]) == Then(PatternsStep(u, env, ps[..i]), PatternStep(u, env, ps[i]))
  {
    assert ps[..i + 1][..i] == ps[..i];
  }

  lemma BucketThen(b: Progress, w: Progress)
    requires b.halt.None? && b.log == []
    ensures Then(b, w) == Progress(b.trace + w.trace, w.log, w.halt)
  {
    assert [] + w.log == w.log;
  }
}
