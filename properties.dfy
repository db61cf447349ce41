/**
 * What the download engine promises, proved about the specification
 * functions of module Resources (and so, through its postcondition,
 * about Machine.Download).
 */
module DownloadProperties {
  import opened Wrappers
  import opened Digest
  import opened FileSystem
  import opened Resources
  import Paths

  /** No URL's staging file can be mistaken for the local file of any URL of the resource. */
  ghost predicate StagingNamesDistinct(codec: Codec, r: Resource, dir: string, urls: seq<string>)
  {
    forall u, v :: u in urls && v in urls ==> StagingPath(codec, dir, u) != r.FinalPath(dir, v)
  }

  /** All URLs of the resource are placed at the same local file (a file name override, or mirrors of one file). */
  ghost predicate SharedLocalName(r: Resource, dir: string)
  {
    forall u, v :: u in r.urls && v in r.urls ==> r.FinalPath(dir, u) == r.FinalPath(dir, v)
  }

  function StagingSet(codec: Codec, dir: string, urls: seq<string>): set<string>
  {
    set u | u in urls :: StagingPath(codec, dir, u)
  }

  function FinalSet(r: Resource, dir: string, urls: seq<string>): set<string>
  {
    set u | u in urls :: r.FinalPath(dir, u)
  }

  /** `p` holds content that satisfies the pin, with the permissions the mode asks for. */
  predicate Stable(job: Job, fs: Files, p: string)
  {
    && p in fs
    && Verified(job, fs[p].data)
    && (job.mode.FileMode? ==> fs[p].perm == Perm(job.mode.bits))
  }

  /** Some URL's local file holds content that satisfies the pin. */
  ghost predicate SomeVerifiedFileInPlace(job: Job, fs: Files)
  {
    exists v :: v in job.r.urls && Final(job, v) in fs && Verified(job, fs[Final(job, v)].data)
  }

  // ---------------------------------------------------------------------
  // Local name and staging name

  /** The final path is dir/Filename when the override is set, else dir/<last URL segment>. */
  lemma LocalNameRule(r: Resource, dir: string, host: string, seg: string)
    requires seg != [] && '/' !in seg
    ensures r.filename != [] ==> r.FinalPath(dir, Paths.Join(host, seg)) == Paths.Join(dir, r.filename)
    ensures r.filename == [] ==> r.FinalPath(dir, Paths.Join(host, seg)) == Paths.Join(dir, seg)
  {
    Paths.BaseOfJoin(host, seg);
  }

  /**
   * The local file of `u` is the local name placed directly inside `dir`:
   * the path starts with `dir/` and its last element is the local name.
   */
  lemma FinalPathInDir(r: Resource, dir: string, u: string)
    requires '/' !in r.LocalName(u)
    ensures Paths.Base(r.FinalPath(dir, u)) == r.LocalName(u)
    ensures dir != [] ==> r.FinalPath(dir, u)[..|dir| + 1] == dir + "/"
  {
    Paths.BaseOfJoin(dir, r.LocalName(u));
    Paths.JoinShape(dir, r.LocalName(u));
  }

  /** GetUrlToDir, as intended, leaves no staging file behind when the fetch fails. */
  lemma FailedFetchLeavesNoStagingFile(env: Env, w: World, dir: string, u: string)
    requires Served(env, u).None?
    ensures StageFetch(env, w, dir, u).1 == Err(FetchFailed(u))
    ensures StagingPath(env.codec, dir, u) !in StageFetch(env, w, dir, u).0.files
    ensures forall p :: p != StagingPath(env.codec, dir, u) ==>
      Lookup(StageFetch(env, w, dir, u).0.files, p) == Lookup(w.files, p)
  {
  }

  /** GetUrlToDir as written leaves an empty staging file behind when the fetch fails. */
  lemma FailedFetchLeaksStagingFileAsWritten(env: Env, w: World, dir: string, u: string)
    requires Served(env, u).None?
    ensures StageFetchAsWritten(env, w, dir, u).1 == Err(FetchFailed(u))
    ensures StagingPath(env.codec, dir, u) in StageFetchAsWritten(env, w, dir, u).0.files
    ensures StageFetchAsWritten(env, w, dir, u).0.files[StagingPath(env.codec, dir, u)].data == []
  {
  }

  // ---------------------------------------------------------------------
  // The reuse check

  /** The reuse check accepts exactly the files whose bytes pass the post-fetch integrity check. */
  lemma ReuseCheckAgreesWithVerification(job: Job, fs: Files, p: string)
    requires JobWellFormed(job)
    ensures ValidateLocalFile(job.env.codec, fs, p, job.r.integrity) <==> p in fs && Verified(job, fs[p].data)
  {
  }

  // ---------------------------------------------------------------------
  // Steps of the loop

  /** One pass over a URL whose fetch fails, and whose local file is not valid, only removes its staging file. */
  lemma SoftFailureStep(job: Job, w: World, u: string)
    requires Served(job.env, u).None?
    requires !ValidateLocalFile(job.env.codec, w.files, Final(job, u), job.r.integrity)
    ensures Attempt(job, w, u) == SoftFailure(World(w.files - {Staging(job, u)}, w.fetched + [u]), FetchFailed(u))
  {
    AttemptEffect(job, w, u);
  }

  lemma StagingSetOfCons(codec: Codec, dir: string, u: string, us: seq<string>)
    ensures StagingSet(codec, dir, [u] + us) == {StagingPath(codec, dir, u)} + StagingSet(codec, dir, us)
  {
    assert forall v :: v in [u] + us <==> v == u || v in us;
  }

  lemma PrefixSnoc<T>(s: seq<T>, k: nat)
    requires k < |s|
    ensures s[..k + 1] == s[..k] + [s[k]]
  {
  }

  lemma StagingSetOfPrefix(codec: Codec, dir: string, urls: seq<string>, k: nat)
    requires k < |urls|
    ensures urls[..k + 1] == urls[..k] + [urls[k]]
    ensures StagingSet(codec, dir, urls[..k + 1]) == StagingSet(codec, dir, urls[..k]) + {StagingPath(codec, dir, urls[k])}
  {
    PrefixSnoc(urls, k);
    assert forall v :: v in urls[..k + 1] <==> v in urls[..k] || v == urls[k];
  }

  /** The loop after one URL whose fetch failed and whose local file was not valid. */
  lemma RunAfterSoftFailure(job: Job, w: World, urls: seq<string>, ok: bool, lastError: Option<Error>)
    requires urls != []
    requires Served(job.env, urls[0]).None?
    requires !ValidateLocalFile(job.env.codec, w.files, Final(job, urls[0]), job.r.integrity)
    ensures RunUrls(job, w, urls, ok, lastError) ==
      RunUrls(job, World(w.files - {Staging(job, urls[0])}, w.fetched + [urls[0]]), urls[1..], ok, Some(FetchFailed(urls[0])))
  {
    SoftFailureStep(job, w, urls[0]);
  }

  /** Cleaning the staging file of urls[0] and then those of urls[1..k] is cleaning those of urls[..k]. */
  lemma CleanedPrefix(codec: Codec, dir: string, w: World, urls: seq<string>, k: nat)
    requires 0 < k <= |urls|
    ensures var w1 := World(w.files - {StagingPath(codec, dir, urls[0])}, w.fetched + [urls[0]]);
      World(w1.files - StagingSet(codec, dir, urls[1..][..k - 1]), w1.fetched + urls[1..][..k - 1])
      == World(w.files - StagingSet(codec, dir, urls[..k]), w.fetched + urls[..k])
  {
    assert urls[1..][..k - 1] == urls[1..k];
    assert urls[..k] == [urls[0]] + urls[1..k];
    StagingSetOfCons(codec, dir, urls[0], urls[1..k]);
  }

  /** Cleaning the staging files of urls[..k], then that of urls[k] and placing a file, in one step. */
  lemma CleanedThroughK(codec: Codec, dir: string, w: World, urls: seq<string>, k: nat, q: string, f: File)
    requires k < |urls|
    ensures var w1 := World(w.files - StagingSet(codec, dir, urls[..k]), w.fetched + urls[..k]);
      World((w1.files - {StagingPath(codec, dir, urls[k])})[q := f], w1.fetched + [urls[k]])
      == World((w.files - StagingSet(codec, dir, urls[..k + 1]))[q := f], w.fetched + urls[..k + 1])
  {
    StagingSetOfPrefix(codec, dir, urls, k);
    var cleaned := w.files - StagingSet(codec, dir, urls[..k + 1]);
    assert cleaned == (w.files - StagingSet(codec, dir, urls[..k])) - {StagingPath(codec, dir, urls[k])};
  }

  /** A run of URLs whose fetches all fail, and whose local files are not valid, only cleans their staging files. */
  lemma {:induction false} FailedPrefix(job: Job, w: World, urls: seq<string>, k: nat, ok: bool, lastError: Option<Error>)
    requires k <= |urls|
    requires forall j :: 0 <= j < k ==>
      && Served(job.env, urls[j]).None?
      && !ValidateLocalFile(job.env.codec, w.files, Final(job, urls[j]), job.r.integrity)
    ensures RunUrls(job, w, urls, ok, lastError) ==
      RunUrls(job,
        World(w.files - StagingSet(job.env.codec, job.dir, urls[..k]), w.fetched + urls[..k]),
        urls[k..], ok, if k == 0 then lastError else Some(FetchFailed(urls[k - 1])))
    decreases k
  {
    var codec := job.env.codec;
    if k == 0 {
      assert urls[..0] == [] && urls[0..] == urls;
      assert StagingSet(codec, job.dir, urls[..0]) == {};
      assert World(w.files - StagingSet(codec, job.dir, urls[..0]), w.fetched + urls[..0]) == w;
    } else {
      var u := urls[0];
      var w1 := World(w.files - {Staging(job, u)}, w.fetched + [u]);
      RunAfterSoftFailure(job, w, urls, ok, lastError);
      var rest := urls[1..];
      forall j | 0 <= j < k - 1
        ensures Served(job.env, rest[j]).None?
        ensures !ValidateLocalFile(codec, w1.files, Final(job, rest[j]), job.r.integrity)
      {
        assert rest[j] == urls[j + 1];
      }
      FailedPrefix(job, w1, rest, k - 1, ok, Some(FetchFailed(u)));
      CleanedPrefix(codec, job.dir, w, urls, k);
      assert rest[k - 1..] == urls[k..];
    }
  }

  /** Once the single local file is stable, every further pass is a reuse hit that changes nothing. */
  lemma {:induction false} StableFileMakesRunNoOp(
    job: Job, w: World, urls: seq<string>, ok: bool, lastError: Option<Error>, p: string)
    requires JobWellFormed(job)
    requires forall u :: u in urls ==> Final(job, u) == p
    requires Stable(job, w.files, p)
    ensures RunUrls(job, w, urls, ok, lastError) == (w, Outcome(ok || urls != [], lastError))
    decreases |urls|
  {
    if urls != [] {
      ReuseCheckAgreesWithVerification(job, w.files, p);
      assert Final(job, urls[0]) == p;
      if job.mode.FileMode? {
        assert w.files[p := w.files[p].(perm := Perm(job.mode.bits))] == w.files;
      }
      assert Attempt(job, w, urls[0]) == Succeeded(w);
      StableFileMakesRunNoOp(job, w, urls[1..], true, lastError, p);
    }
  }

  /** With a single local file, a successful run leaves that file stable. */
  lemma {:induction false} SuccessLeavesStableFile(
    job: Job, w: World, urls: seq<string>, ok: bool, lastError: Option<Error>, p: string)
    requires JobWellFormed(job)
    requires forall u :: u in urls ==> Final(job, u) == p && Staging(job, u) != p
    requires ok ==> Stable(job, w.files, p)
    ensures RunUrls(job, w, urls, ok, lastError).1.Ok? ==> Stable(job, RunUrls(job, w, urls, ok, lastError).0.files, p)
    decreases |urls|
  {
    if urls != [] {
      var u := urls[0];
      assert Final(job, u) == p && Staging(job, u) != p;
      ReuseCheckAgreesWithVerification(job, w.files, p);
      match Attempt(job, w, u)
      case HardFailure(_, _) =>
      case SoftFailure(w', e) =>
        SuccessLeavesStableFile(job, w', urls[1..], ok, Some(e), p);
      case Succeeded(w') =>
        assert Stable(job, w'.files, p);
        SuccessLeavesStableFile(job, w', urls[1..], true, lastError, p);
    }
  }

  /**
   * One pass changes only the staging file of `u` and, with verified
   * content, the local file of `u`; it requests `u` at most once.
   */
  lemma AttemptChangesOnly(job: Job, w: World, u: string)
    requires JobWellFormed(job)
    ensures var w1 := Attempt(job, w, u).world;
      && (forall p :: p != Staging(job, u) && Lookup(w1.files, p) != Lookup(w.files, p) ==>
            && p == Final(job, u) && p in w1.files
            && Verified(job, w1.files[p].data)
            && w1.files[p].perm == PermAfter(job.mode))
      && (w1.fetched == w.fetched || w1.fetched == w.fetched + [u])
  {
    AttemptEffect(job, w, u);
    ReuseCheckAgreesWithVerification(job, w.files, Final(job, u));
  }

  /** The loop after one pass that did not stop it. */
  lemma RunUrlsStep(job: Job, w: World, urls: seq<string>, ok: bool, lastError: Option<Error>)
    requires urls != [] && !Attempt(job, w, urls[0]).HardFailure?
    ensures var step := Attempt(job, w, urls[0]);
      RunUrls(job, w, urls, ok, lastError) ==
      RunUrls(job, step.world, urls[1..],
              if step.Succeeded? then true else ok,
              if step.SoftFailure? then Some(step.error) else lastError)
  {
  }

  /**
   * The loop never writes unverified content outside staging files: any
   * other path it changes is a local file of one of its URLs and holds
   * bytes that satisfy the pin, with the permissions the mode implies.
   */
  lemma {:induction false} OnlyVerifiedContentIsPlaced(
    job: Job, w: World, urls: seq<string>, ok: bool, lastError: Option<Error>)
    requires JobWellFormed(job)
    ensures var w' := RunUrls(job, w, urls, ok, lastError).0;
      forall p :: p !in StagingSet(job.env.codec, job.dir, urls) && Lookup(w'.files, p) != Lookup(w.files, p) ==>
        && p in FinalSet(job.r, job.dir, urls)
        && p in w'.files
        && Verified(job, w'.files[p].data)
        && w'.files[p].perm == PermAfter(job.mode)
    decreases |urls|
  {
    if urls != [] {
      var u := urls[0];
      var rest := urls[1..];
      var step := Attempt(job, w, u);
      var w1 := step.world;
      assert Staging(job, u) in StagingSet(job.env.codec, job.dir, urls);
      assert Final(job, u) in FinalSet(job.r, job.dir, urls);
      AttemptChangesOnly(job, w, u);
      if !step.HardFailure? {
        var ok1 := if step.Succeeded? then true else ok;
        var err1 := if step.SoftFailure? then Some(step.error) else lastError;
        RunUrlsStep(job, w, urls, ok, lastError);
        OnlyVerifiedContentIsPlaced(job, w1, rest, ok1, err1);
        assert StagingSet(job.env.codec, job.dir, rest) <= StagingSet(job.env.codec, job.dir, urls);
        assert FinalSet(job.r, job.dir, rest) <= FinalSet(job.r, job.dir, urls);
      }
    }
  }

  /** `a` is `b` with some elements left out; the rest keep their order. */
  predicate IsSubseq<T(==)>(a: seq<T>, b: seq<T>)
    decreases |b|
  {
    a == [] || (b != [] && ((a[0] == b[0] && IsSubseq(a[1..], b[1..])) || IsSubseq(a, b[1..])))
  }

  /** A subsequence is no longer than the sequence and draws its elements from it. */
  lemma {:induction false} SubseqBounds<T>(a: seq<T>, b: seq<T>)
    requires IsSubseq(a, b)
    ensures |a| <= |b|
    ensures forall x :: x in a ==> x in b
    decreases |b|
  {
    if a != [] {
      if a[0] == b[0] && IsSubseq(a[1..], b[1..]) {
        SubseqBounds(a[1..], b[1..]);
        assert forall x :: x in a ==> x == a[0] || x in a[1..];
      } else {
        SubseqBounds(a, b[1..]);
      }
    }
  }

  lemma SubseqSkip<T>(x: T, a: seq<T>, b: seq<T>)
    requires IsSubseq(a, b)
    ensures IsSubseq(a, [x] + b)
  {
    assert ([x] + b)[1..] == b;
  }

  lemma SubseqTake<T>(x: T, a: seq<T>, b: seq<T>)
    requires IsSubseq(a, b)
    ensures IsSubseq([x] + a, [x] + b)
  {
    assert ([x] + a)[1..] == a;
    assert ([x] + b)[1..] == b;
  }

  /** A sequence that starts with `pre + [x]` is `pre`, then `x`, then the rest. */
  lemma SplitAfterPrefix<T>(full: seq<T>, pre: seq<T>, x: T)
    requires |pre| < |full| && full[..|pre| + 1] == pre + [x]
    ensures full[..|pre|] == pre
    ensures full[|pre|..] == [x] + full[|pre| + 1..]
  {
    assert full[..|pre|] == full[..|pre| + 1][..|pre|];
    assert full[|pre|] == full[..|pre| + 1][|pre|];
  }

  /** The loop only appends to the request log, and what it appends is a subsequence of its URLs. */
  lemma {:induction false} RequestLogIsSubsequence(
    job: Job, w: World, urls: seq<string>, ok: bool, lastError: Option<Error>)
    requires JobWellFormed(job)
    ensures var w' := RunUrls(job, w, urls, ok, lastError).0;
      && |w.fetched| <= |w'.fetched|
      && w'.fetched[..|w.fetched|] == w.fetched
      && IsSubseq(w'.fetched[|w.fetched|..], urls)
    decreases |urls|
  {
    if urls != [] {
      var u := urls[0];
      var rest := urls[1..];
      var step := Attempt(job, w, u);
      var w1 := step.world;
      AttemptChangesOnly(job, w, u);
      assert urls == [u] + rest;
      if step.HardFailure? {
        if w1.fetched != w.fetched {
          assert w1.fetched[|w.fetched|..] == [u] + [];
          SubseqTake(u, [], rest);
        }
      } else {
        var ok1 := if step.Succeeded? then true else ok;
        var err1 := if step.SoftFailure? then Some(step.error) else lastError;
        RunUrlsStep(job, w, urls, ok, lastError);
        RequestLogIsSubsequence(job, w1, rest, ok1, err1);
        var w' := RunUrls(job, w1, rest, ok1, err1).0;
        var tail := w'.fetched[|w1.fetched|..];
        if w1.fetched == w.fetched {
          SubseqSkip(u, tail, rest);
        } else {
          SplitAfterPrefix(w'.fetched, w.fetched, u);
          SubseqTake(u, tail, rest);
        }
      }
    }
  }

  /**
   * The loop requests only its own URLs, in their order, each position of
   * `urls` at most once, so at most |urls| requests; the earlier log is kept.
   */
  lemma RequestsOnlyItsUrls(
    job: Job, w: World, urls: seq<string>, ok: bool, lastError: Option<Error>)
    requires JobWellFormed(job)
    ensures var w' := RunUrls(job, w, urls, ok, lastError).0;
      && |w.fetched| <= |w'.fetched| <= |w.fetched| + |urls|
      && w'.fetched[..|w.fetched|] == w.fetched
      && IsSubseq(w'.fetched[|w.fetched|..], urls)
      && (forall i :: |w.fetched| <= i < |w'.fetched| ==> w'.fetched[i] in urls)
  {
    RequestLogIsSubsequence(job, w, urls, ok, lastError);
    var w' := RunUrls(job, w, urls, ok, lastError).0;
    var tail := w'.fetched[|w.fetched|..];
    SubseqBounds(tail, urls);
    forall i | |w.fetched| <= i < |w'.fetched|
      ensures w'.fetched[i] in urls
    {
      assert w'.fetched[i] == tail[i - |w.fetched|];
    }
  }

  /** Under distinct staging names, a successful run leaves some URL's local file verified. */
  lemma {:induction false} SuccessMeansVerifiedFile(job: Job, w: World, urls: seq<string>, ok: bool, lastError: Option<Error>)
    requires JobWellFormed(job)
    requires StagingNamesDistinct(job.env.codec, job.r, job.dir, job.r.urls)
    requires forall u :: u in urls ==> u in job.r.urls
    requires ok ==> SomeVerifiedFileInPlace(job, w.files)
    ensures RunUrls(job, w, urls, ok, lastError).1.Ok? ==>
      SomeVerifiedFileInPlace(job, RunUrls(job, w, urls, ok, lastError).0.files)
    decreases |urls|
  {
    if urls != [] {
      var u := urls[0];
      assert u in job.r.urls;
      AttemptEffect(job, w, u);
      ReuseCheckAgreesWithVerification(job, w.files, Final(job, u));
      match Attempt(job, w, u)
      case HardFailure(_, _) =>
      case SoftFailure(w', e) =>
        if ok {
          var v :| v in job.r.urls && Final(job, v) in w.files && Verified(job, w.files[Final(job, v)].data);
          assert Staging(job, u) != Final(job, v);
          assert Final(job, v) in w'.files && Verified(job, w'.files[Final(job, v)].data);
        }
        SuccessMeansVerifiedFile(job, w', urls[1..], ok, Some(e));
      case Succeeded(w') =>
        assert Final(job, u) in w'.files && Verified(job, w'.files[Final(job, u)].data);
        SuccessMeansVerifiedFile(job, w', urls[1..], true, lastError);
    }
  }

  // ---------------------------------------------------------------------
  // Download

  /** A pin that does not parse fails the download before any request, changing nothing. */
  lemma MalformedIntegrityFailsFast(env: Env, r: Resource, dir: string, mode: Mode, w: World)
    requires env.codec.algoOf(r.integrity).None?
    ensures DownloadSpec(env, r, dir, mode, w) == (w, Err(MalformedIntegrity(r.integrity)))
  {
  }

  /** A resource with no URL is reported as an error, with nothing fetched or changed. */
  lemma EmptyUrlListIsAnError(env: Env, r: Resource, dir: string, mode: Mode, w: World)
    requires env.codec.algoOf(r.integrity).Some? && r.urls == []
    ensures DownloadSpec(env, r, dir, mode, w) == (w, Err(NoUrlTried))
  {
  }

  /** As written, the end of Download reports success when no URL was tried. */
  lemma EmptyUrlListSucceedsAsWritten()
    ensures OutcomeAsWritten(false, None) == Ok(())
    ensures Outcome(false, None) == Err(NoUrlTried)
  {
  }

  /**
   * Whatever happens, every path other than a staging file is either left
   * alone or ends up holding a file that passes the reuse check; the
   * requests made are a subsequence of the resource's URLs.
   */
  lemma DownloadPlacesOnlyVerifiedContent(env: Env, r: Resource, dir: string, mode: Mode, w: World)
    ensures var w' := DownloadSpec(env, r, dir, mode, w).0;
      && (forall p :: p !in StagingSet(env.codec, dir, r.urls) && Lookup(w'.files, p) != Lookup(w.files, p) ==>
            p in FinalSet(r, dir, r.urls) && ValidateLocalFile(env.codec, w'.files, p, r.integrity))
      && |w.fetched| <= |w'.fetched| <= |w.fetched| + |r.urls|
      && w'.fetched[..|w.fetched|] == w.fetched
      && IsSubseq(w'.fetched[|w.fetched|..], r.urls)
      && (forall i :: |w.fetched| <= i < |w'.fetched| ==> w'.fetched[i] in r.urls)
  {
    if env.codec.algoOf(r.integrity).Some? {
      var job := Job(env, r, dir, mode, env.codec.algoOf(r.integrity).value);
      OnlyVerifiedContentIsPlaced(job, w, r.urls, false, None);
      RequestsOnlyItsUrls(job, w, r.urls, false, None);
      var w' := DownloadSpec(env, r, dir, mode, w).0;
      forall p | p !in StagingSet(env.codec, dir, r.urls) && Lookup(w'.files, p) != Lookup(w.files, p)
        ensures ValidateLocalFile(env.codec, w'.files, p, r.integrity)
      {
        ReuseCheckAgreesWithVerification(job, w'.files, p);
      }
    }
  }

  /** A successful download leaves some URL's local file passing the reuse check. */
  lemma DownloadSuccessMeansFileInPlace(env: Env, r: Resource, dir: string, mode: Mode, w: World)
    requires StagingNamesDistinct(env.codec, r, dir, r.urls)
    requires DownloadSpec(env, r, dir, mode, w).1.Ok?
    ensures exists u :: u in r.urls && ValidateLocalFile(
      env.codec, DownloadSpec(env, r, dir, mode, w).0.files, r.FinalPath(dir, u), r.integrity)
  {
    var job := Job(env, r, dir, mode, env.codec.algoOf(r.integrity).value);
    SuccessMeansVerifiedFile(job, w, r.urls, false, None);
    var w' := DownloadSpec(env, r, dir, mode, w).0;
    var v :| v in r.urls && Final(job, v) in w'.files && Verified(job, w'.files[Final(job, v)].data);
    ReuseCheckAgreesWithVerification(job, w'.files, Final(job, v));
  }

  /** When every mirror is down and no local file is valid, the last fetch error is returned. */
  lemma AllMirrorsDown(env: Env, r: Resource, dir: string, mode: Mode, w: World)
    requires env.codec.algoOf(r.integrity).Some?
    requires r.urls != []
    requires forall j :: 0 <= j < |r.urls| ==>
      && Served(env, r.urls[j]).None?
      && !ValidateLocalFile(env.codec, w.files, r.FinalPath(dir, r.urls[j]), r.integrity)
    ensures DownloadSpec(env, r, dir, mode, w) ==
      (World(w.files - StagingSet(env.codec, dir, r.urls), w.fetched + r.urls),
       Err(FetchFailed(r.urls[|r.urls| - 1])))
  {
    var job := Job(env, r, dir, mode, env.codec.algoOf(r.integrity).value);
    FailedPrefix(job, w, r.urls, |r.urls|, false, None);
    assert r.urls[..|r.urls|] == r.urls;
    assert r.urls[|r.urls|..] == [];
  }

  /**
   * A run that starts at a working mirror with verified content places it
   * and then reuses it for every later URL sharing the same local file.
   */
  lemma SuccessThenStable(job: Job, w: World, urls: seq<string>, p: string, e: Option<Error>)
    requires JobWellFormed(job)
    requires urls != [] && Staging(job, urls[0]) != p
    requires forall v :: v in urls ==> Final(job, v) == p
    requires !ValidateLocalFile(job.env.codec, w.files, p, job.r.integrity)
    requires Served(job.env, urls[0]).Some? && Verified(job, Served(job.env, urls[0]).value)
    ensures RunUrls(job, w, urls, false, e) ==
      (World((w.files - {Staging(job, urls[0])})[p := File(Served(job.env, urls[0]).value, PermAfter(job.mode))],
             w.fetched + [urls[0]]),
       Ok(()))
  {
    var u := urls[0];
    var w2 := World((w.files - {Staging(job, u)})[p := File(Served(job.env, u).value, PermAfter(job.mode))], w.fetched + [u]);
    assert Final(job, u) == p;
    AttemptEffect(job, w, u);
    assert Attempt(job, w, u) == Succeeded(w2);
    RunUrlsStep(job, w, urls, false, e);
    forall v | v in urls[1..]
      ensures Final(job, v) == p
    {
    }
    StableFileMakesRunNoOp(job, w2, urls[1..], true, e, p);
  }

  /**
   * Mirror fallback: when the first k mirrors are down and mirror k serves
   * content that satisfies the pin, the download succeeds with exactly
   * k + 1 requests, and the local file holds mirror k's bytes.
   */
  lemma FallbackToFirstWorkingMirror(env: Env, r: Resource, dir: string, mode: Mode, w: World, k: nat)
    requires env.codec.algoOf(r.integrity).Some?
    requires k < |r.urls|
    requires SharedLocalName(r, dir) && StagingNamesDistinct(env.codec, r, dir, r.urls)
    requires !ValidateLocalFile(env.codec, w.files, r.FinalPath(dir, r.urls[0]), r.integrity)
    requires forall j :: 0 <= j < k ==> Served(env, r.urls[j]).None?
    requires Served(env, r.urls[k]).Some?
    requires Matches(env.codec, env.codec.algoOf(r.integrity).value, Served(env, r.urls[k]).value, r.integrity)
    ensures DownloadSpec(env, r, dir, mode, w) ==
      (World(
         (w.files - StagingSet(env.codec, dir, r.urls[..k + 1]))
           [r.FinalPath(dir, r.urls[k]) := File(Served(env, r.urls[k]).value, PermAfter(mode))],
         w.fetched + r.urls[..k + 1]),
       Ok(()))
  {
    var job := Job(env, r, dir, mode, env.codec.algoOf(r.integrity).value);
    var urls := r.urls;
    var p := r.FinalPath(dir, urls[0]);
    forall j | 0 <= j < k
      ensures Served(env, urls[j]).None? && !ValidateLocalFile(env.codec, w.files, Final(job, urls[j]), r.integrity)
    {
      assert Final(job, urls[j]) == p;
    }
    FailedPrefix(job, w, urls, k, false, None);
    var stagedBefore := StagingSet(env.codec, dir, urls[..k]);
    var w1 := World(w.files - stagedBefore, w.fetched + urls[..k]);
    var u := urls[k];
    assert p !in stagedBefore;
    forall v | v in urls[k..]
      ensures Final(job, v) == p
    {
    }
    var e := if k == 0 then None else Some(FetchFailed(urls[k - 1]));
    SuccessThenStable(job, w1, urls[k..], p, e);
    var placed := File(Served(env, u).value, PermAfter(mode));
    CleanedThroughK(env.codec, dir, w, urls, k, p, placed);
    assert r.FinalPath(dir, u) == p;
  }

  /**
   * An integrity mismatch is a hard stop: the download fails with that
   * mismatch, no later mirror is requested, and no local file changes.
   */
  lemma IntegrityMismatchIsHardStop(env: Env, r: Resource, dir: string, mode: Mode, w: World, k: nat)
    requires env.codec.algoOf(r.integrity).Some?
    requires k < |r.urls|
    requires StagingNamesDistinct(env.codec, r, dir, r.urls)
    requires forall j :: 0 <= j <= k ==> !ValidateLocalFile(env.codec, w.files, r.FinalPath(dir, r.urls[j]), r.integrity)
    requires forall j :: 0 <= j < k ==> Served(env, r.urls[j]).None?
    requires Served(env, r.urls[k]).Some?
    requires !Matches(env.codec, env.codec.algoOf(r.integrity).value, Served(env, r.urls[k]).value, r.integrity)
    ensures DownloadSpec(env, r, dir, mode, w) ==
      (World(
         (w.files - StagingSet(env.codec, dir, r.urls[..k]))
           [StagingPath(env.codec, dir, r.urls[k]) := File(Served(env, r.urls[k]).value, CREATE_MODE)],
         w.fetched + r.urls[..k + 1]),
       Err(IntegrityMismatch(r.urls[k], r.integrity)))
    ensures forall v :: v in r.urls ==>
      Lookup(DownloadSpec(env, r, dir, mode, w).0.files, r.FinalPath(dir, v)) == Lookup(w.files, r.FinalPath(dir, v))
  {
    var job := Job(env, r, dir, mode, env.codec.algoOf(r.integrity).value);
    var urls := r.urls;
    FailedPrefix(job, w, urls, k, false, None);
    var stagedBefore := StagingSet(env.codec, dir, urls[..k]);
    var w1 := World(w.files - stagedBefore, w.fetched + urls[..k]);
    var u := urls[k];
    assert Final(job, u) !in stagedBefore;
    assert !ValidateLocalFile(env.codec, w1.files, Final(job, u), r.integrity);
    var body := Served(env, u).value;
    var w2 := World(w1.files[Staging(job, u) := File(body, CREATE_MODE)], w1.fetched + [u]);
    AttemptEffect(job, w1, u);
    assert Attempt(job, w1, u) == HardFailure(w2, IntegrityMismatch(u, r.integrity));
    assert urls[k..][0] == u;
    PrefixSnoc(urls, k);
    assert w.fetched + urls[..k + 1] == w1.fetched + [u];
    forall v | v in urls
      ensures Lookup(w2.files, r.FinalPath(dir, v)) == Lookup(w.files, r.FinalPath(dir, v))
    {
      assert r.FinalPath(dir, v) != Staging(job, u);
      assert r.FinalPath(dir, v) !in stagedBefore;
    }
  }

  /** A local file that already passes the reuse check is kept: no request, same bytes. */
  lemma ValidLocalFileIsReused(env: Env, r: Resource, dir: string, mode: Mode, w: World)
    requires r.urls != [] && SharedLocalName(r, dir)
    requires ValidateLocalFile(env.codec, w.files, r.FinalPath(dir, r.urls[0]), r.integrity)
    ensures DownloadSpec(env, r, dir, mode, w).1 == Ok(())
    ensures DownloadSpec(env, r, dir, mode, w).0.fetched == w.fetched
    ensures DownloadSpec(env, r, dir, mode, w).0.files.Keys == w.files.Keys
    ensures DownloadSpec(env, r, dir, mode, w).0.files[r.FinalPath(dir, r.urls[0])].data
         == w.files[r.FinalPath(dir, r.urls[0])].data
  {
    var job := Job(env, r, dir, mode, env.codec.algoOf(r.integrity).value);
    var p := r.FinalPath(dir, r.urls[0]);
    ReuseCheckAgreesWithVerification(job, w.files, p);
    var fs1 := if mode.FileMode? then w.files[p := w.files[p].(perm := Perm(mode.bits))] else w.files;
    var w1 := World(fs1, w.fetched);
    AttemptEffect(job, w, r.urls[0]);
    assert Attempt(job, w, r.urls[0]) == Succeeded(w1);
    forall v | v in r.urls[1..]
      ensures Final(job, v) == p
    {
    }
    StableFileMakesRunNoOp(job, w1, r.urls[1..], true, None, p);
  }

  /** Idempotence: right after a successful download, downloading again requests nothing and changes nothing. */
  lemma SecondDownloadIsNoOp(env: Env, r: Resource, dir: string, mode: Mode, w: World)
    requires SharedLocalName(r, dir) && StagingNamesDistinct(env.codec, r, dir, r.urls)
    requires DownloadSpec(env, r, dir, mode, w).1.Ok?
    ensures var w' := DownloadSpec(env, r, dir, mode, w).0;
      DownloadSpec(env, r, dir, mode, w') == (w', Ok(()))
  {
    var job := Job(env, r, dir, mode, env.codec.algoOf(r.integrity).value);
    var p := r.FinalPath(dir, r.urls[0]);
    forall u | u in r.urls
      ensures Final(job, u) == p && Staging(job, u) != p
    {
    }
    SuccessLeavesStableFile(job, w, r.urls, false, None, p);
    var w' := DownloadSpec(env, r, dir, mode, w).0;
    StableFileMakesRunNoOp(job, w', r.urls, false, None, p);
  }

  /** Tamper detection: corrupted local content is detected, fetched again once, and replaced by the served bytes. */
  lemma CorruptedFileIsRestored(env: Env, r: Resource, dir: string, mode: Mode, w: World)
    requires env.codec.algoOf(r.integrity).Some?
    requires r.urls != [] && SharedLocalName(r, dir) && StagingNamesDistinct(env.codec, r, dir, r.urls)
    requires r.FinalPath(dir, r.urls[0]) in w.files
    requires !Matches(env.codec, env.codec.algoOf(r.integrity).value, w.files[r.FinalPath(dir, r.urls[0])].data, r.integrity)
    requires Served(env, r.urls[0]).Some?
    requires Matches(env.codec, env.codec.algoOf(r.integrity).value, Served(env, r.urls[0]).value, r.integrity)
    ensures DownloadSpec(env, r, dir, mode, w).1 == Ok(())
    ensures DownloadSpec(env, r, dir, mode, w).0.fetched == w.fetched + [r.urls[0]]
    ensures ValidateLocalFile(env.codec, DownloadSpec(env, r, dir, mode, w).0.files, r.FinalPath(dir, r.urls[0]), r.integrity)
    ensures DownloadSpec(env, r, dir, mode, w).0.files[r.FinalPath(dir, r.urls[0])].data == Served(env, r.urls[0]).value
  {
    FallbackToFirstWorkingMirror(env, r, dir, mode, w, 0);
    assert r.urls[..1] == [r.urls[0]];
  }

  /**
   * NewResourceFromUrl and Download fit together: the pin computed from
   * what the first URL serves is accepted when that URL is downloaded,
   * with one request, and the local file gets those bytes.
   */
  lemma PinnedResourceDownloads(
    env: Env, urls: seq<string>, algo: string, tags: seq<string>, filename: string, dir: string, mode: Mode, w: World)
    requires NamesItsAlgorithm(env.codec)
    requires NewResourceFromUrl(env, urls, algo, tags, filename).Ok?
    requires var r := NewResourceFromUrl(env, urls, algo, tags, filename).value;
      && SharedLocalName(r, dir) && StagingNamesDistinct(env.codec, r, dir, urls)
      && !ValidateLocalFile(env.codec, w.files, r.FinalPath(dir, urls[0]), r.integrity)
    ensures var r := NewResourceFromUrl(env, urls, algo, tags, filename).value;
      DownloadSpec(env, r, dir, mode, w) ==
        (World(
           (w.files - {StagingPath(env.codec, dir, urls[0])})
             [r.FinalPath(dir, urls[0]) := File(Served(env, urls[0]).value, PermAfter(mode))],
           w.fetched + [urls[0]]),
         Ok(()))
  {
    var r := NewResourceFromUrl(env, urls, algo, tags, filename).value;
    var body := Served(env, urls[0]).value;
    assert env.codec.integrityOf(algo, body) == Some(r.integrity);
    assert env.codec.algoOf(r.integrity) == Some(algo);
    FallbackToFirstWorkingMirror(env, r, dir, mode, w, 0);
    assert urls[..1] == [urls[0]];
    assert StagingSet(env.codec, dir, urls[..1]) == {StagingPath(env.codec, dir, urls[0])};
  }
}
