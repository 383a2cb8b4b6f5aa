# Minio uploader: the publishing step

This project models the post-build step of the Jenkins Minio plugin
(`MinioUploader.perform`) and proves properties of the model. The step runs
once a build has finished. It does nothing for an aborted or failed build.
Otherwise it:

1. reads the build environment;
2. expands the comma-separated source patterns;
3. makes sure the target bucket exists, creating it if `bucketExists` says it
   is absent;
4. uploads every file each pattern matches, in order, and writes one log line
   per uploaded file.

Each file's object key is its path relative to the pattern's search root
(`getFilename`). When an object-name prefix is configured, the key is instead
the prefix, a slash and the last `/`-separated segment of that path.

The model has six modules:

- `Wrappers`: `Option`, for Java's nullable values.
- `JavaStrings`: `String.split` with a one-character delimiter and limit 0,
  which drops trailing empty strings, and `String.trim`. The module defines
  both as recursive functions and proves their results are fully
  characterised: splitting a join of delimiter-free pieces gives the pieces
  back.
- `ObjectNames`: `getFilename` and the key rule.
- `Upload`: what `perform` does, written as functions over an `Env` value.
  `Env` holds the answers of everything outside the model: the environment
  lookup, macro expansion, the Minio client, the host's listing, the
  search-root length and the remote upload. This module also holds the
  lemmas about uploads, order, logging, stopping and the build result.
- `Perform`: a `Run` class whose `result` field the catch clauses update, and
  the methods `Perform`, `TryUpload`, `EnsureBucket`, `UploadPatterns`,
  `UploadPattern` and `UploadFile`. Between them they contain the source's
  two nested loops and the inner loop's body,
  and each is proved to compute the matching function of `Upload`.
- `WorkedCases`: concrete cases of the split and the key rule.

How an exception ends the run follows the source's single `try` block:

- The first exception from any call ends the whole run.
- Minio errors, I/O errors and interruptions set the build result to
  UNSTABLE.
- A region conflict is logged but leaves the result alone.
- Two unchecked exceptions are not caught, so they leave `perform` with the
  result untouched. The model reports both as `Escaped`:
  - a `substring` index out of range in `getFilename`;
  - indexing the empty array that `split("/")` returns for a name made only
    of slashes.

Which faults each call can raise follows the checked exceptions the catch
clauses handle:

- `getEnvironment`, `list`, `isDirectory` and `act`: I/O or interruption;
- `bucketExists`: Minio or I/O;
- `makeBucket`: any fault except interruption.

The whole walk over patterns and matches sits in that one `try` block. So a
failed upload, like any other fault, ends the run: files listed after it are
never uploaded, even though the build is only marked UNSTABLE.

The lemmas about the walk are stated over the *listed jobs*: every file the
host lists, pattern by pattern and in listing order, with a pattern whose
listing throws standing for one failed job. A job is *good* when nothing
perform asks about it fails:

- it was listed;
- `isDirectory` answered false;
- `getFilename` and the key rule both give a name;
- its upload succeeded.

`FaultOf` gives the fault a job that is not good stops the walk with. The
walk uploads the good jobs in order and stops at the first job that is not
good, with that job's fault (`UploadsFollowListing`, `FirstFaultEndsRun`).
Once perform gets past the skip checks, the environment lookup and the null
check, a run completes exactly when the bucket is ready and every job is good
(`CompletedUploadsEverything`, `GoodRunCompletes`).

## Model

| member | source | states |
|---|---|---|
| JavaStrings.StripTrailing | src/main/java/org/jenkinsci/plugins/minio/MinioUploader.java:170 | The result is a prefix of the string and what was removed is only delimiters. The result is empty exactly when the string consists only of delimiters, and otherwise it does not end in a delimiter. |
| JavaStrings.AfterLast | src/main/java/org/jenkinsci/plugins/minio/MinioUploader.java:171 | The result is a suffix of the string, contains no delimiter, and is either the whole string or preceded by a delimiter. |
| JavaStrings.Pieces | src/main/java/org/jenkinsci/plugins/minio/MinioUploader.java:150 | Every piece is free of the delimiter, there is at least one piece, and joining the pieces with the delimiter gives back the string. |
| JavaStrings.DropTrailingEmpty | src/main/java/org/jenkinsci/plugins/minio/MinioUploader.java:150 | The result is a prefix of the pieces, everything dropped is empty, and the last piece kept is not empty. |
| JavaStrings.Split | src/main/java/org/jenkinsci/plugins/minio/MinioUploader.java:150 | Java's `split` with limit 0: every element is free of the delimiter. The result is empty exactly when the string is non-empty and made only of delimiters. Otherwise joining the result gives the string without its trailing delimiters. |
| JavaStrings.DropTrailingPieces | src/main/java/org/jenkinsci/plugins/minio/MinioUploader.java:170 | Dropping the trailing empty pieces gives the pieces of the string stripped of its trailing delimiters. |
| JavaStrings.LastPiece | src/main/java/org/jenkinsci/plugins/minio/MinioUploader.java:171 | The last piece of a string is the part after its last delimiter. |
| JavaStrings.PiecesOfJoin | src/main/java/org/jenkinsci/plugins/minio/MinioUploader.java:150 | Splitting a join of delimiter-free pieces gives back exactly those pieces, so splitting and joining are inverse. |
| JavaStrings.PiecesAfterDelimiter | src/main/java/org/jenkinsci/plugins/minio/MinioUploader.java:150 | Appending a delimiter and a delimiter-free piece adds exactly that piece to the split. |
| JavaStrings.TrimLeading | src/main/java/org/jenkinsci/plugins/minio/MinioUploader.java:161 | The result is a suffix of the string. Everything removed is at or below the space character, and the result does not start with such a character. |
| JavaStrings.TrimTrailing | src/main/java/org/jenkinsci/plugins/minio/MinioUploader.java:161 | The result is a prefix of the string. Everything removed is at or below the space character, and the result does not end with such a character. |
| JavaStrings.Trim | src/main/java/org/jenkinsci/plugins/minio/MinioUploader.java:161 | Java's `trim`: the result is no longer than the string, neither starts nor ends with a character at or below U+0020, and is empty exactly when every character is at or below U+0020. |
| ObjectNames.Basename | src/main/java/org/jenkinsci/plugins/minio/MinioUploader.java:170-171 | The last segment contains no '/'. It is the suffix of the path (trailing slashes ignored) that follows the last '/'. |
| ObjectNames.LastSegment | src/main/java/org/jenkinsci/plugins/minio/MinioUploader.java:170-171 | `pathItems[pathItems.length-1]` is missing exactly when the name is a non-empty run of slashes. Otherwise it is the name's last segment. |
| ObjectNames.GetFilename | src/main/java/org/jenkinsci/plugins/minio/MinioUploader.java:210-215 | `substring(searchIndex)` succeeds exactly when 0 <= index <= length, with the length counted in code points. Its result has length `length - index`, and the skipped prefix followed by the result is the remote path. |
| ObjectNames.ObjectName | src/main/java/org/jenkinsci/plugins/minio/MinioUploader.java:168-175 | With a null or empty prefix the key is the relative name. Otherwise the key is the prefix, "/" and the last segment; no key exists exactly when the name is a non-empty run of slashes. |
| Upload.Outcome | src/main/java/org/jenkinsci/plugins/minio/MinioUploader.java:104-208 | perform skips exactly when the build was aborted or failed, and a skip writes one log line and calls nothing. A null expansion gives a caught I/O error with no store call and marks the build UNSTABLE. A run that stops before the bucket step makes no store call and raises no region conflict. Every caught fault ends the log with its error line. |
| Upload.BucketStep | src/main/java/org/jenkinsci/plugins/minio/MinioUploader.java:141-147 | bucketExists is asked first. makeBucket is the only possible call, for the configured bucket, made exactly when bucketExists answered false. The step goes on exactly when the bucket is ready. |
| Upload.FileStep | src/main/java/org/jenkinsci/plugins/minio/MinioUploader.java:155-185 | One pass of the inner loop: at most one put and at most one upload line, which comes after its put. The pass goes on exactly when it logged the upload. `FileFollows` states which put, which line and which fault. |
| Upload.MatchesStep | src/main/java/org/jenkinsci/plugins/minio/MinioUploader.java:152-187 | The inner loop: every put but possibly the last is logged, and a loop that goes on has put and logged every match. `MatchesFollow` and `MatchesStopped` state which files and where it stops. |
| Upload.PatternStep | src/main/java/org/jenkinsci/plugins/minio/MinioUploader.java:150-187 | One pass of the outer loop: a pass that goes on had its listing answered and has put and logged every match. `PatternsFollow` states its contents. |
| Upload.PatternsStep | src/main/java/org/jenkinsci/plugins/minio/MinioUploader.java:150-188 | The outer loop: every put but possibly the last is logged, and a loop that goes on has logged every put. `PatternsFollow`, `PatternsStopped` and `PatternsListed` state which files and where it stops. |
| Upload.Body | src/main/java/org/jenkinsci/plugins/minio/MinioUploader.java:121-188 | The `try` block: it calls the store only after the environment lookup and the null check succeed, and it goes on to the end only if the bucket is ready. `PublishedOutcome` and `UploadsFollowListing` state what it does past the null check. |
| Upload.Finish | src/main/java/org/jenkinsci/plugins/minio/MinioUploader.java:189-207 | The catch clauses make no store call and keep the log written so far. A checked fault is caught and adds exactly one error line naming it. An unchecked one escapes with no line. The exit records exactly where the `try` block stopped. |
| Upload.OutcomeTrace | src/main/java/org/jenkinsci/plugins/minio/MinioUploader.java:121-188 | A decomposition of the store calls: none when perform stops before the bucket step, otherwise the bucket step's, followed by the walk's once the bucket is ready. |
| Upload.ResultAfter | src/main/java/org/jenkinsci/plugins/minio/MinioUploader.java:189-207 | The result is either left alone or set to UNSTABLE. A caught fault other than a region conflict sets UNSTABLE, and nothing else changes the result. |
| Upload.MatchesStopped | src/main/java/org/jenkinsci/plugins/minio/MinioUploader.java:152-157 | Once a file throws, the later matches of the pattern have no effect. |
| Upload.PatternsStopped | src/main/java/org/jenkinsci/plugins/minio/MinioUploader.java:150-152 | Once a pattern's walk throws, the later patterns have no effect. |
| Upload.MatchesFollow | src/main/java/org/jenkinsci/plugins/minio/MinioUploader.java:152-185 | The walk over one pattern's matches puts the matched files in order, each under its key, and logs each success with file, bucket and key. It stops only at the first match that is not good, with that match's fault, and has put that match exactly when its upload was tried. A walk that does not stop has put and logged every match. |
| Upload.FileFollows | src/main/java/org/jenkinsci/plugins/minio/MinioUploader.java:155-185 | A good match is put under the key the naming rule gives and logged. Any other match stops the walk with its fault: the isDirectory fault, an IOException for a directory, the unchecked index exception for a missing name or key, or the upload's fault after its put. |
| Upload.PatternsFollow | src/main/java/org/jenkinsci/plugins/minio/MinioUploader.java:150-188 | Across all patterns, the k-th put is the upload of the k-th listed job and every put but possibly the last is logged. The walk stops only at the first job that is not good, a failed listing included, with that job's fault. A walk that does not stop has uploaded every listed job. |
| Upload.PatternsNoConflict | src/main/java/org/jenkinsci/plugins/minio/MinioUploader.java:150-188 | The walk over the patterns never raises a region conflict. |
| Upload.MatchesNoConflict | src/main/java/org/jenkinsci/plugins/minio/MinioUploader.java:152-187 | The walk over one pattern's matches never raises a region conflict. |
| Upload.FileNoConflict | src/main/java/org/jenkinsci/plugins/minio/MinioUploader.java:155-185 | Handling one match never raises a region conflict. |
| Upload.PatternsListed | src/main/java/org/jenkinsci/plugins/minio/MinioUploader.java:150-152 | A walk that does not stop early got an answer from the listing of every pattern. |
| Upload.UploadsFollowListing | src/main/java/org/jenkinsci/plugins/minio/MinioUploader.java:141-188 | For a build that gets past the null check and has its bucket ready, the puts and upload log lines of the whole run follow the listed jobs in order. The run ends at the first job that is not good, with its fault, and completes only after every job. |
| Upload.BucketComesFirst | src/main/java/org/jenkinsci/plugins/minio/MinioUploader.java:141-147 | makeBucket is called at most once, for the configured bucket, before any put, and exactly when bucketExists answered false. Nothing is put unless the bucket existed or was made. |
| Upload.OnlyFirstCallMakesBucket | src/main/java/org/jenkinsci/plugins/minio/MinioUploader.java:141-152 | Every call after the first is a put. The first is makeBucket, for the configured bucket, exactly when perform gets past the null check and bucketExists answered false. |
| Upload.PutsNeedBucket | src/main/java/org/jenkinsci/plugins/minio/MinioUploader.java:137-152 | A run that puts anything got past the skip checks, the environment and the null check, and found or made the bucket. |
| Upload.DirectoryStopsUploads | src/main/java/org/jenkinsci/plugins/minio/MinioUploader.java:155-157 | A directory among the listed files means nothing at or after it is put, and the run does not complete. |
| Upload.FailedUploadStops | src/main/java/org/jenkinsci/plugins/minio/MinioUploader.java:178-185 | A failed upload means no later file is put and the file is not logged as uploaded. The run does not complete. |
| Upload.CompletedUploadsEverything | src/main/java/org/jenkinsci/plugins/minio/MinioUploader.java:121-188 | A completed run got past every check: the bucket is ready, every listing answered, every listed job is good, and every listed file was put and logged once. |
| Upload.GoodRunCompletes | src/main/java/org/jenkinsci/plugins/minio/MinioUploader.java:121-188 | The converse: when the bucket is ready and every listed job is good, perform completes and leaves the build result alone. |
| Upload.CompletedPublishes | src/main/java/org/jenkinsci/plugins/minio/MinioUploader.java:121-188 | A completed run got past the skip checks, the environment and the null check, had its bucket ready, and its walk did not stop. |
| Upload.FinishedFollows | src/main/java/org/jenkinsci/plugins/minio/MinioUploader.java:150-188 | A walk over listed jobs that did not stop put and logged every job, and every job is good. |
| Upload.BucketFaultEndsRun | src/main/java/org/jenkinsci/plugins/minio/MinioUploader.java:141-147 | When bucketExists or makeBucket throws, that fault is the caught exit. The calls are the bucket step's and the log is that one error line. |
| Upload.BucketFaultNoUploads | src/main/java/org/jenkinsci/plugins/minio/MinioUploader.java:141-150 | A run whose bucket step throws uploads and logs no file. |
| Upload.FirstFaultEndsRun | src/main/java/org/jenkinsci/plugins/minio/MinioUploader.java:150-203 | The first listed job that is not good decides the exit: its fault. There are exactly k upload lines (by `UploadsFollowListing`, those of the jobs before it). The job is put only if its upload was tried, and a caught fault there marks the build UNSTABLE. |
| Upload.StopsAtFirstFault | src/main/java/org/jenkinsci/plugins/minio/MinioUploader.java:150-187 | A walk over listed jobs stops exactly at its first job that is not good, with that job's fault, after logging the jobs before it. |
| Upload.StopsByFault | src/main/java/org/jenkinsci/plugins/minio/MinioUploader.java:150-187 | A walk over listed jobs never passes a job that is not good, and puts such a job only when its upload was tried. |
| Upload.FaultIsHostFault | src/main/java/org/jenkinsci/plugins/minio/MinioUploader.java:152-187 | A job stops the walk only with an I/O error, an interruption or the unchecked index exception. |
| Upload.DirectoryMarksUnstable | src/main/java/org/jenkinsci/plugins/minio/MinioUploader.java:155-199 | A directory that is the first job not good ends the run with a caught IOException and marks the build UNSTABLE. There are exactly k puts and k upload lines (by `UploadsFollowListing`, those of the jobs before it). |
| Upload.FailedUploadMarksUnstable | src/main/java/org/jenkinsci/plugins/minio/MinioUploader.java:178-203 | A failed upload on the first job that is not good ends the run with the upload's fault and marks the build UNSTABLE. There are k + 1 puts, the last being the failed one, and k upload lines. |
| Upload.NotGoodStops | src/main/java/org/jenkinsci/plugins/minio/MinioUploader.java:141-188 | Any job that is not good means the run does not complete, no file after it is put, and it is not logged. |
| Upload.RegionConflictLeavesResult | src/main/java/org/jenkinsci/plugins/minio/MinioUploader.java:204-207 | A region conflict comes only from makeBucket. The run then made that single call, wrote one error line and left the build result unchanged. |
| Upload.ReadyNoConflict | src/main/java/org/jenkinsci/plugins/minio/MinioUploader.java:150-188 | Once the bucket is ready, no call perform makes raises a region conflict. |
| Perform.Run.constructor | src/main/java/org/jenkinsci/plugins/minio/MinioUploader.java:105 | The build starts with the given result. |
| Perform.Perform | src/main/java/org/jenkinsci/plugins/minio/MinioUploader.java:104-208 | The calls, log and exit are those of `Upload.Outcome`. The build's new result is `ResultAfter` of the old result and the exit: unchanged or UNSTABLE. |
| Perform.TryUpload | src/main/java/org/jenkinsci/plugins/minio/MinioUploader.java:121-188 | The `try` block computes `Upload.Body`. |
| Perform.EnsureBucket | src/main/java/org/jenkinsci/plugins/minio/MinioUploader.java:141-147 | The bucket check and creation compute `Upload.BucketStep`. |
| Perform.UploadPatterns | src/main/java/org/jenkinsci/plugins/minio/MinioUploader.java:150-188 | The outer loop over the comma-separated patterns computes `Upload.PatternsStep`. |
| Perform.UploadPattern | src/main/java/org/jenkinsci/plugins/minio/MinioUploader.java:152-187 | The inner loop over one pattern's matches computes `Upload.PatternStep`. |
| Perform.UploadFile | src/main/java/org/jenkinsci/plugins/minio/MinioUploader.java:155-185 | The body of the inner loop for one match, with its early exits for a failed isDirectory call, a directory, a missing name or key and a failed upload, computes `Upload.FileStep`. |
| WorkedCases.SplitExample | src/main/java/org/jenkinsci/plugins/minio/MinioUploader.java:150 | "out/a.txt,out/b.txt" is walked as the two patterns "out/a.txt" and "out/b.txt". |
| WorkedCases.KeyExample | src/main/java/org/jenkinsci/plugins/minio/MinioUploader.java:168-172 | With the prefix "ci-42", "out/a.txt" is stored as "ci-42/a.txt". |
| WorkedCases.SlashesExample | src/main/java/org/jenkinsci/plugins/minio/MinioUploader.java:170-171 | A name of slashes only has no last segment, so Java's array index throws. |
| WorkedCases.EmptyExample | src/main/java/org/jenkinsci/plugins/minio/MinioUploader.java:170-172 | The empty name splits into one empty piece, so its key is the prefix and a slash. |

## Left out

- The plugin's descriptor, its global configuration and form validation: they only supply the server address and credentials.
- `MinioClientFactory` and `createClient`: the client is not modelled. Its `bucketExists`, `makeBucket` and upload answers are inputs.
- `MinioAllPathUploader` and remoting: uploading one file is an input outcome, either success or a fault.
- The search-root computation, `FileHelper.getSearchPathLength`: it is an input function of the trimmed pattern. The source calls it once per file, but with the same arguments for every file of a pattern.
- `FilePath.list` with its glob syntax and the exclusion pattern: the matches of each pattern are an input function of the untrimmed pattern. The model assumes the listing of a pattern is the same each time it is asked.
- `Util.replaceMacro` and `run.getEnvironment`: the expanded source pattern, or null, and the success of the environment lookup are inputs.
- The exact log texts, the display-name prefix of each log line and the printed stack traces. The log is modelled as typed lines: skip, uploaded, error.
- Perform: `Run.setResult` is modelled as plain assignment. Jenkins' own rule that a result can only get worse is not part of this model.
- ObjectNames.GetFilename: paths are sequences of Unicode code points and `searchPathLength` is read as a code-point index. Java's UTF-16 indexing in `length` and `substring` is not modelled, so for paths with characters outside the Basic Multilingual Plane the bounds differ, and an index inside a surrogate pair has no counterpart.
- The per-exception split of the first catch clause, with its eight Minio exception types: they are one `MinioError` fault, since all are handled alike.
