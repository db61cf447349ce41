# grabit resource download engine, in Dafny

This project models the resource download engine of grabit, a tool that
fetches files by URL, checks them against a pinned integrity string (a
digest such as `sha256-…` recorded in a lock file), and places them in a
target directory. All of the engine lives in `internal/resource.go`. The
model covers:

- the `Resource` record: candidate URLs in fallback order, the pin, tags
  and an optional file name override;
- the local-name rule: the `Filename` override, or Go's `path.Base` of
  the URL, joined onto the target directory;
- the staging name of a URL, `dir/.<hex sha256 of the URL>`, and
  `GetUrlToDir`, which removes any old staging file, creates it, fetches
  into it and is meant to remove it again when the fetch fails (as
  written it does not; see "## Findings");
- `ValidateLocalFile`, the reuse check;
- `Contains`;
- `NewResourceFromUrl`, which pins the integrity of what the first URL
  serves;
- `Resource.Download`, the loop over the URLs. A failed fetch is soft:
  the error is recorded and the loop goes on. An integrity mismatch is
  hard: it returns at once. A verified fetch removes the old local file,
  renames the staged file onto it and applies the mode unless the mode
  is the `NoFileMode` sentinel.

Layout:

- `wrappers.dfy`: `Option` and `Result`.
- `paths.dfy`: `path.Base` and `filepath.Join` on strings.
- `digest.dfy`: the digest codec. It is uninterpreted: the algorithm
  named by an integrity string, the integrity of some bytes under an
  algorithm, and the hex SHA-256 of a URL.
- `filesystem.dfy`: the file system as a map from path to bytes and
  permission bits, with remove, create, write, rename and chmod.
- `resource.dfy`: the resource, the reuse check, resource construction,
  the staging fetch, and specification functions for one pass of the
  download loop (`Attempt`) and for the whole loop (`RunUrls`,
  `DownloadSpec`).
- `host.dfy`: class `Machine`, which holds the file system the engine
  changes in place. Its methods `GetUrl`, `GetUrlToDir` and `Download`
  are imperative, with the loop and its local variables (`ok`, the last
  error) as in the source. `GetUrlToDir` and `Download` are proved equal
  to their specification functions (`StageFetch`, `DownloadSpec`);
  `GetUrl`'s postcondition states its effect on the files and the log
  directly.
- `properties.dfy`: what the engine promises, proved about the
  specification functions and so, through the postconditions above,
  about `Machine.Download`. It covers fallback, hard stop, reuse,
  idempotence, tamper recovery, the frame, and the fetch count.

The network is a fixed oracle from URL to an optional body. A GET is
recorded in a ghost fetch log, so "no request was made" can be stated.

### What is modelled where the source file is ambiguous

`internal/resource.go` as it stands is an unresolved merge and does not
compile. The `if` at lines 175-177 is never closed. The fetch-and-verify
block appears twice (lines 116-124 and 147-158), and the reuse check
sits after the first copy. The model follows the single pass the code
evidently intends, per URL:

1. the reuse check (lines 134-144);
2. one staged fetch (lines 147-151);
3. one integrity check that returns at once on a mismatch (lines 121-124).
   The other copy, lines 154-158, would instead remove the staged file
   and fall back to the next URL. The test
   `TestRunDownloadFailsIntegrityTest` cannot tell the two apart: it has
   a single URL, so either copy ends by returning the mismatch. The hard
   stop is chosen because of the engine's rule that a fetch failure is
   recoverable by another mirror but an integrity mismatch is not: a
   wrong digest from one mirror means the pin and the content disagree,
   and falling back could hide a compromised or stale pin;
4. removal of the old file, the rename and the chmod (lines 160-172).

As in lines 121-124, a rejected staged file stays on disk.

One would expect the loop to stop at the first success, and that is how
the engine's behaviour is usually described. The code does not stop:
a success ends with `continue` (line 143) or falls through (line 172),
and later URLs are still processed. The model follows the code. When
every URL shares one local file (the usual case for mirrors, or when
`Filename` is set), every later URL is a reuse hit that changes nothing
(`StableFileMakesRunNoOp`), so the outcome is the same. Idempotence and
fallback are stated under that hypothesis (`SharedLocalName`).

## Model

| member | source | states |
|---|---|---|
| Paths.Base | internal/resource.go:130 | `path.Base` is never empty; it is "." for the empty path and "/" exactly when the path is all slashes; otherwise it contains no slash |
| Paths.BaseOfJoin | internal/resource.go:130 | the base of `dir/seg` is `seg` for any slash-free, non-empty segment |
| Paths.BaseIgnoresTrailingSlash | internal/resource.go:130 | a trailing slash does not change the base, so `…/file/` names `file` |
| Resources.Resource.LocalName | internal/resource.go:126-131 | the local name is never empty; without an override it contains a slash only when it is "/" |
| DownloadProperties.FinalPathInDir | internal/resource.go:132 | the contract of `Resources.Resource.FinalPath`, for a slash-free local name: its last element is the local name, and for a non-empty `dir` it starts with `dir/` |
| DownloadProperties.LocalNameRule | internal/resource.go:126-132 | the final path is `dir/Filename` when the override is set, else `dir/<last segment of the URL>` |
| Resources.Resource.Contains | internal/resource.go:187-194 | the loop returns true exactly when the URL is one of `Urls`; tags and integrity play no part |
| Paths.JoinShape | internal/resource.go:132 | the contract of `Paths.Join`: a non-empty directory, exactly one slash, then the name, and nothing else; an empty directory gives the name |
| Resources.StagingPath | internal/resource.go:71-73 | the staging path is never empty |
| Resources.StagingNameIsHidden | internal/resource.go:71-73 | for a slash-free hex digest, the staging file is a hidden file inside `dir`: its last element is "." followed by the digest, and it starts with `dir/` |
| Resources.ValidateLocalFile | internal/resource.go:196-212 | valid exactly when the file exists, the pin names an algorithm, and the recomputed integrity equals the pin; every other path (missing file, unparseable pin, digest unavailable, different digest) gives false |
| DownloadProperties.ReuseCheckAgreesWithVerification | internal/resource.go:135 | for a parseable pin, the reuse check accepts exactly the files whose bytes would pass the post-fetch integrity check |
| Resources.CheckIntegrity | internal/resource.go:121-124 | success exactly when the staged bytes have the pinned integrity; otherwise an integrity mismatch that names the URL and the pin |
| Resources.NewResourceFromUrl | internal/resource.go:29-45 | all outcomes: an empty URL list is an error; a failed fetch of the first URL is an error; a digest that cannot be computed is an error; otherwise construction succeeds, and the result keeps `Urls`, `Tags` and `Filename` and pins the integrity of the bytes served by the first URL |
| DownloadProperties.PinnedResourceDownloads | internal/resource.go:29-45 | a resource built from its first URL downloads from that URL with one request, and the local file receives those bytes |
| Host.Machine.GetUrl | internal/resource.go:48-64 | one request is logged; a served body is written to the given file and that name is returned; a failed fetch changes no file |
| Host.Machine.GetUrlToDir | internal/resource.go:68-92 | the method's new state and result are those of `StageFetch` |
| Resources.StageFetch | internal/resource.go:71-89 | one request; on success the staging file holds exactly the served body with the create permissions; on failure the error names the URL and the staging file is gone; no other path changes |
| DownloadProperties.FailedFetchLeavesNoStagingFile | internal/resource.go:85-89 | a failed fetch leaves no staging file and no other path changed |
| Resources.StageFetchAsWritten | internal/resource.go:68-92 | `GetUrlToDir` as written: one request; on success it agrees with the intended `StageFetch`; on failure the error names the URL and the file map is the old one with an empty staging file at the staging path: the removal of `""` deletes nothing |
| DownloadProperties.FailedFetchLeaksStagingFileAsWritten | internal/resource.go:85-87 | as written, a failed fetch leaves an empty staging file behind |
| Resources.AttemptEffect | internal/resource.go:116-172 | one pass: a valid local file is kept with no request, and only its permissions follow the mode; a failed fetch only removes the staging file; a mismatch stops with the rejected bytes staged; verified bytes replace the local file with the mode's permissions and the staging file is gone |
| Resources.AttemptFailureKinds | internal/resource.go:116-158 | the contract of `Attempt`, one pass: it fails softly exactly when no valid local file exists and the fetch fails, recording that fetch error; a pass that stops the loop does so only with an integrity mismatch or a file system error |
| FileSystem.RemoveDeletesOnly | internal/resource.go:155-163 | the contract of `Remove` (called at lines 155, 161 and 163, and also at 76 and 87): the path is gone afterwards, every other path is unchanged, and removing a missing path changes nothing (the ignored error) |
| FileSystem.CreateTruncates | internal/resource.go:79 | the contract of `Create`: the path then holds an empty file that keeps an existing file's permissions or gets 0666; every other path is unchanged |
| FileSystem.WriteReplaces | internal/resource.go:57 | the contract of `Write`: the path then holds exactly the body, an existing file keeps its permissions, no other path changes, and creating first makes no difference |
| FileSystem.PermLowBits | internal/resource.go:168 | the contract of `Perm` (`mode.Perm()` here and at line 138): at most 0777; the mode is the disjoint union of its permission bits and the rest; applying it twice changes nothing |
| FileSystem.RenameMoves | internal/resource.go:162 | the contract of `Rename`: succeeds exactly when the source exists; the target then holds the source's file, the source is gone unless it is the target, and every other path is unchanged |
| FileSystem.ChmodSetsPermOnly | internal/resource.go:168 | the contract of `Chmod`: succeeds exactly when the file exists; it sets that file's permissions to the low nine bits of the mode and changes nothing else |
| FileSystem.ApplyModeEffect | internal/resource.go:167-171 | the contract of `ApplyMode`: `NoFileMode` leaves the files alone; any other mode fails exactly when the file is missing and otherwise sets its permissions, keeping every file's bytes and the set of paths |
| Resources.RunUrlsVerdict | internal/resource.go:111-184 | the contract of `RunUrls`, the loop: once a pass has succeeded only a hard failure can fail it; every error is a fetch error, a mismatch, a file system error or the internal error; the internal error arises exactly when no URL is left, none succeeded and none was recorded |
| Resources.DownloadVerdict | internal/resource.go:104-185 | the contract of `DownloadSpec`: a pin that does not parse is reported exactly when it does not parse, with nothing changed; the internal error is reported exactly when the pin parses and the resource has no URL |
| Resources.Outcome | internal/resource.go:175-184 | success exactly when some pass succeeded; otherwise the last recorded error, or a distinct error when no URL was tried |
| Resources.OutcomeAsWritten | internal/resource.go:175-184 | the end of `Download` as written: success exactly when some pass succeeded or no error was recorded; it differs from the intended `Outcome` exactly when nothing succeeded and nothing was recorded |
| DownloadProperties.EmptyUrlListSucceedsAsWritten | internal/resource.go:175-184 | as written, the end of `Download` reports success when nothing was tried |
| Host.Machine.Download | internal/resource.go:104-185 | the method's new state and result are those of `DownloadSpec`, which the lemmas below describe |
| DownloadProperties.MalformedIntegrityFailsFast | internal/resource.go:106-109 | an unparseable pin fails before any request, with nothing changed |
| DownloadProperties.EmptyUrlListIsAnError | internal/resource.go:175-184 | a resource with no URL is an error, with no request and nothing changed |
| DownloadProperties.SoftFailureStep | internal/resource.go:116-120 | a pass whose fetch fails and whose local file is not valid only records the error and removes the staging file |
| DownloadProperties.FailedPrefix | internal/resource.go:116-120 | a run of failing mirrors only cleans their staging files, logs one request each, and hands the last fetch error to the rest of the loop |
| DownloadProperties.AllMirrorsDown | internal/resource.go:175-180 | when every mirror is down, the last fetch error is returned, each URL was requested once, and only staging files were touched |
| DownloadProperties.FallbackToFirstWorkingMirror | cmd/dowload_test.go:184-200 | when the first k mirrors are down and mirror k serves verified bytes, the download succeeds after exactly k + 1 requests with mirror k's bytes in place |
| DownloadProperties.IntegrityMismatchIsHardStop | internal/resource.go:121-124 | a mismatch at mirror k fails with that mismatch, no later mirror is requested, and no URL's local file changes |
| DownloadProperties.AttemptChangesOnly | internal/resource.go:160-172 | one pass changes only the URL's staging file and, with verified bytes and the mode's permissions, its local file; at most one request |
| DownloadProperties.OnlyVerifiedContentIsPlaced | internal/resource.go:160-172 | over the whole loop, every non-staging path that changes is a local file of one of the URLs and holds verified bytes with the mode's permissions |
| DownloadProperties.RequestLogIsSubsequence | internal/resource.go:111-151 | the loop only appends to the request log, and what it appends is a subsequence of `Urls`: each listed URL at most once, in list order |
| DownloadProperties.RequestsOnlyItsUrls | internal/resource.go:111-151 | the appended log is a subsequence of `Urls`, hence at most one request per listed URL, at most `len(Urls)` in all, and only to its own URLs |
| DownloadProperties.DownloadPlacesOnlyVerifiedContent | internal/resource.go:104-185 | for the whole download: every changed non-staging path passes the reuse check afterwards, and the requests made are a subsequence of the resource's URLs (each at most once, in order) |
| DownloadProperties.SuccessMeansVerifiedFile | internal/resource.go:160-172 | a successful loop leaves some URL's local file holding verified bytes |
| DownloadProperties.DownloadSuccessMeansFileInPlace | internal/resource.go:175-184 | a successful download leaves some URL's local file passing the reuse check |
| DownloadProperties.StableFileMakesRunNoOp | internal/resource.go:134-144 | once the shared local file is verified and has the mode's permissions, every further pass is a reuse hit that requests nothing and changes nothing |
| DownloadProperties.SuccessLeavesStableFile | internal/resource.go:160-172 | with one shared local file, a successful loop leaves it verified and with the mode's permissions |
| DownloadProperties.ValidLocalFileIsReused | internal/optimization_test.go:21-39 | a local file that passes the reuse check makes the download succeed with no request, no file added or removed, and the same bytes |
| DownloadProperties.SecondDownloadIsNoOp | internal/resource.go:134-144 | right after a successful download, a second download requests nothing and changes nothing |
| DownloadProperties.CorruptedFileIsRestored | internal/optimization_test.go:41-62 | a corrupted local file is detected, fetched once more, and replaced by bytes that pass the reuse check |

## Left out

- The HTTP transport (`requests`, the `Accept` header, `ctx` and cancellation) is a fixed oracle from URL to optional body; a partial body or a fetch that writes and then fails is not modelled.
- `url.Parse` is not modelled: an invalid URL behaves like a URL whose fetch fails, which the loop treats the same way.
- SHA-256, hex and base64 are uninterpreted codec functions (`Digest.Codec`). `getAlgoFromIntegrity`, `getIntegrityFromFile` and `checkIntegrityFromFile` are not part of this model beyond their results: a pin that names an algorithm or not, an integrity that can be computed or not, and equality with the pin.
- `os.Create` failing in `GetUrlToDir` is not modelled: the target directory is assumed writable. The umask is not modelled: a created file gets mode 0666.
- `filepath.Join` is modelled as concatenation with one `/`; its lexical cleaning (`..`, doubled slashes) is left out.
- `GetUrltoTempFile`, `os.CreateTemp`, the `log.Fatal` path and the deferred removal of the temporary file are skipped: `NewResourceFromUrl` is a function of what the first URL serves, and its fetch is not logged.
- Logging carries no behaviour and is left out.
- The lock registry, TOML, tags filtering and the CLI are outside the engine and not modelled.
- Concurrency and races on the rename: the model is sequential.
- The second fetch-and-verify copy at internal/resource.go:147-158, which would fall back on a mismatch, is not modelled; see above.
- DownloadProperties.FallbackToFirstWorkingMirror: stated only when all URLs share one local file and no staging name equals a local file, because the loop does not stop after a success and later URLs with other local names would place copies of their own.
- DownloadProperties.SecondDownloadIsNoOp: stated only when all URLs share one local file and no staging name equals a local file, for the same reason.
- DownloadProperties.CorruptedFileIsRestored: stated under the same shared-local-file hypothesis.
- DownloadProperties.ValidLocalFileIsReused: stated under the same shared-local-file hypothesis.
- DownloadProperties.PinnedResourceDownloads: stated under the same shared-local-file hypothesis.
- DownloadProperties.PinnedResourceDownloads also assumes that the integrity the codec computes names its own algorithm (`NamesItsAlgorithm`); the unseen helpers are what would make this true.

## Findings

| source | as written | input that shows it | evidently intended | confidence | as-written member | corrected member |
|---|---|---|---|---|---|---|
| internal/resource.go:85-87 | `getUrl` returns `""` with its error, and that overwrites `fileName`, so the cleanup asks `os.Remove` to delete `""`, which fails | any URL whose fetch fails: the empty staging file created at line 79 stays on disk | remove the staging file when the fetch fails | high, not executed | Resources.StageFetchAsWritten, DownloadProperties.FailedFetchLeaksStagingFileAsWritten | Resources.StageFetch, DownloadProperties.FailedFetchLeavesNoStagingFile |
| internal/resource.go:175-184 | with `ok` false and no recorded error, the function returns `err`, which is nil at that point, so it reports success | a resource whose `Urls` is empty and whose pin parses: `Download` returns nil and places nothing | report an error when no URL was tried | high, not executed | Resources.OutcomeAsWritten, DownloadProperties.EmptyUrlListSucceedsAsWritten | Resources.Outcome, DownloadProperties.EmptyUrlListIsAnError |
