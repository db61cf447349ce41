/**
 * The resource download engine: a resource's URLs, its pinned integrity,
 * the local-name rule, the staging fetch, the reuse check and the
 * specification of one download pass over the URLs.
 */
module Resources {
  import opened Wrappers
  import opened Digest
  import opened FileSystem
  import Paths

  datatype Error =
    | EmptyUrlList
    | DigestUnavailable(algo: string)
    | MalformedIntegrity(integrity: string)
    | FetchFailed(url: string)
    | IntegrityMismatch(url: string, expected: string)
    | IoError(path: string)
    | NoUrlTried

  /**
   * What the engine cannot see: the digest codec and the network. A URL
   * missing from `net`, or mapped to None, is one whose fetch fails.
   */
  datatype Env = Env(codec: Codec, net: map<string, Option<seq<byte>>>)

  /** The body a GET of `u` returns, or None when the request fails. */
  function Served(env: Env, u: string): Option<seq<byte>>
  {
    if u in env.net then env.net[u] else None
  }

  /** A resource: candidate URLs in fallback order, the pin, tags and an optional file name. */
  datatype Resource = Resource(urls: seq<string>, integrity: string, tags: seq<string>, filename: string)
  {
    /** The name the file receives in the target directory when fetched from `u`. */
    function LocalName(u: string): (name: string)
      ensures name != []
      ensures filename == [] ==> ('/' in name ==> name == "/")
    {
      if filename != [] then filename else Paths.Base(u)
    }

    function FinalPath(dir: string, u: string): string
    {
      Paths.Join(dir, LocalName(u))
    }

    /** Whether `url` is one of this resource's URLs. */
    method Contains(url: string) returns (found: bool)
      ensures found <==> url in urls
    {
      var i := 0;
      while i < |urls|
        invariant 0 <= i <= |urls|
        invariant forall j :: 0 <= j < i ==> urls[j] != url
      {
        if urls[i] == url {
          return true;
        }
        i := i + 1;
      }
      return false;
    }
  }

  /** The staging file of `u` in `dir`: "dir/." followed by the hex SHA-256 of the URL. */
  function StagingPath(codec: Codec, dir: string, u: string): (p: string)
    ensures p != []
  {
    Paths.Join(dir, "." + codec.urlHash(u))
  }

  /**
   * The staging file is a hidden file of `dir` named after the URL's hash:
   * its last path element is "." followed by the hex digest, which
   * contains no slash.
   */
  lemma StagingNameIsHidden(codec: Codec, dir: string, u: string)
    requires '/' !in codec.urlHash(u)
    ensures Paths.Base(StagingPath(codec, dir, u)) == "." + codec.urlHash(u)
    ensures dir != [] ==> StagingPath(codec, dir, u)[..|dir| + 1] == dir + "/"
  {
    Paths.BaseOfJoin(dir, "." + codec.urlHash(u));
    Paths.JoinShape(dir, "." + codec.urlHash(u));
  }

  /**
   * The reuse check: true only when the file exists, the expected
   * integrity string parses, and the file's recomputed integrity is that
   * very string. Every other path reports false.
   */
  function ValidateLocalFile(codec: Codec, fs: Files, filePath: string, expected: string): (valid: bool)
    ensures valid <==>
      && filePath in fs
      && codec.algoOf(expected).Some?
      && Matches(codec, codec.algoOf(expected).value, fs[filePath].data, expected)
  {
    if filePath !in fs then false
    else
      match codec.algoOf(expected)
      case None => false
      case Some(algo) =>
        match codec.integrityOf(algo, fs[filePath].data)
        case None => false
        case Some(computed) => computed == expected
  }

  /** checkIntegrityFromFile on the staged bytes fetched from `u`. */
  function CheckIntegrity(codec: Codec, algo: string, data: seq<byte>, expected: string, u: string)
    : (r: Result<(), Error>)
    ensures r.Ok? <==> Matches(codec, algo, data, expected)
    ensures r.Err? ==> r.error == IntegrityMismatch(u, expected)
  {
    if codec.integrityOf(algo, data) == Some(expected) then Ok(())
    else Err(IntegrityMismatch(u, expected))
  }

  /**
   * NewResourceFromUrl: rejects an empty URL list, otherwise pins the
   * integrity of whatever the first URL serves.
   */
  function NewResourceFromUrl(env: Env, urls: seq<string>, algo: string, tags: seq<string>, filename: string)
    : (r: Result<Resource, Error>)
    ensures urls == [] ==> r == Err(EmptyUrlList)
    ensures urls != [] && Served(env, urls[0]).None? ==> r == Err(FetchFailed(urls[0]))
    ensures urls != [] && Served(env, urls[0]).Some? && env.codec.integrityOf(algo, Served(env, urls[0]).value).None? ==>
      r == Err(DigestUnavailable(algo))
    ensures urls != [] && Served(env, urls[0]).Some? && env.codec.integrityOf(algo, Served(env, urls[0]).value).Some? ==>
      r.Ok?
    ensures r.Ok? ==>
      && r.value.urls == urls && r.value.tags == tags && r.value.filename == filename
      && urls != [] && Served(env, urls[0]).Some?
      && Matches(env.codec, algo, Served(env, urls[0]).value, r.value.integrity)
  {
    if |urls| < 1 then Err(EmptyUrlList)
    else
      match Served(env, urls[0])
      case None => Err(FetchFailed(urls[0]))
      case Some(body) =>
        match env.codec.integrityOf(algo, body)
        case None => Err(DigestUnavailable(algo))
        case Some(integrity) => Ok(Resource(urls, integrity, tags, filename))
  }

  /** The files on disk and the log of every URL requested so far. */
  datatype World = World(files: Files, fetched: seq<string>)

  /**
   * GetUrlToDir, with its cleanup as intended: remove any old staging file,
   * create it, fetch into it, and remove it again when the fetch fails.
   */
  function StageFetch(env: Env, w: World, dir: string, u: string): (res: (World, Result<string, Error>))
    ensures res.0.fetched == w.fetched + [u]
    ensures res.1.Ok? <==> Served(env, u).Some?
    ensures res.1.Ok? ==>
      && res.1.value == StagingPath(env.codec, dir, u)
      && res.0.files == w.files[StagingPath(env.codec, dir, u) := File(Served(env, u).value, CREATE_MODE)]
    ensures res.1.Err? ==>
      && res.1.error == FetchFailed(u)
      && res.0.files == w.files - {StagingPath(env.codec, dir, u)}
  {
    var staging := StagingPath(env.codec, dir, u);
    var created := Create(Remove(w.files, staging), staging);
    match Served(env, u)
    case Some(body) => (World(Write(created, staging, body), w.fetched + [u]), Ok(staging))
    case None =>
      assert Remove(created, staging) == w.files - {staging};
      (World(Remove(created, staging), w.fetched + [u]), Err(FetchFailed(u)))
  }

  /**
   * GetUrlToDir as written: getUrl returns the name "" together with its
   * error, and that "" is what the cleanup then asks os.Remove to delete.
   * No file has the empty name, so the removal fails (its error is
   * ignored) and the empty staging file stays.
   */
  function StageFetchAsWritten(env: Env, w: World, dir: string, u: string): (res: (World, Result<string, Error>))
    ensures res.0.fetched == w.fetched + [u]
    ensures res.1.Ok? <==> Served(env, u).Some?
    ensures res.1.Ok? ==> res == StageFetch(env, w, dir, u)
    ensures res.1.Err? ==>
      && res.1.error == FetchFailed(u)
      && res.0.files == w.files[StagingPath(env.codec, dir, u) := File([], CREATE_MODE)]
  {
    var staging := StagingPath(env.codec, dir, u);
    var created := Create(Remove(w.files, staging), staging);
    match Served(env, u)
    case Some(body) => (World(Write(created, staging, body), w.fetched + [u]), Ok(staging))
    case None =>
      // The cleanup is os.Remove(""), which fails and removes nothing.
      assert created == w.files[staging := File([], CREATE_MODE)];
      (World(created, w.fetched + [u]), Err(FetchFailed(u)))
  }

  /** One download of resource `r` into `dir`, once its pin has parsed to `algo`. */
  datatype Job = Job(env: Env, r: Resource, dir: string, mode: Mode, algo: string)

  function Staging(job: Job, u: string): string
  {
    StagingPath(job.env.codec, job.dir, u)
  }

  function Final(job: Job, u: string): string
  {
    job.r.FinalPath(job.dir, u)
  }

  /** `data` satisfies the resource's pin. */
  predicate Verified(job: Job, data: seq<byte>)
  {
    Matches(job.env.codec, job.algo, data, job.r.integrity)
  }

  /** `algo` is the algorithm the resource's pin names. */
  predicate JobWellFormed(job: Job)
  {
    job.env.codec.algoOf(job.r.integrity) == Some(job.algo)
  }

  /** How the pass over one URL ended: on to the next URL, recording an error, or out of the loop. */
  datatype Step =
    | Succeeded(world: World)
    | SoftFailure(world: World, error: Error)
    | HardFailure(world: World, error: Error)

  /**
   * The pass of the download loop over URL `u`: reuse check, then one
   * staged fetch, one integrity check, removal of the old final file, the
   * rename and the chmod. AttemptEffect gives its net effect in every case.
   */
  function Attempt(job: Job, w: World, u: string): Step
  {
    var resPath := Final(job, u);
    if ValidateLocalFile(job.env.codec, w.files, resPath, job.r.integrity) then
      match ApplyMode(w.files, resPath, job.mode)
      case None => HardFailure(w, IoError(resPath))
      case Some(fs) => Succeeded(World(fs, w.fetched))
    else
      var (w1, staged) := StageFetch(job.env, w, job.dir, u);
      match staged
      case Err(e) => SoftFailure(w1, e)
      case Ok(lpath) =>
        match CheckIntegrity(job.env.codec, job.algo, w1.files[lpath].data, job.r.integrity, u)
        case Err(e) => HardFailure(w1, e)
        case Ok(_) =>
          var cleared := Remove(w1.files, resPath);
          match Rename(cleared, lpath, resPath)
          case None => HardFailure(World(Remove(cleared, lpath), w1.fetched), IoError(lpath))
          case Some(renamed) =>
            match ApplyMode(renamed, resPath, job.mode)
            case None => HardFailure(World(renamed, w1.fetched), IoError(resPath))
            case Some(fs) => Succeeded(World(fs, w1.fetched))
  }

  /**
   * The net effect of one pass: a valid local file is kept (only its
   * permissions may change) with no request; otherwise one request, after
   * which a failed fetch only removes the staging file, a mismatch leaves
   * the rejected bytes in the staging file and stops, and verified bytes
   * replace the local file.
   */
  lemma AttemptEffect(job: Job, w: World, u: string)
    ensures ValidateLocalFile(job.env.codec, w.files, Final(job, u), job.r.integrity) ==>
      Attempt(job, w, u) == Succeeded(World(
        if job.mode.FileMode?
        then w.files[Final(job, u) := w.files[Final(job, u)].(perm := Perm(job.mode.bits))]
        else w.files,
        w.fetched))
    ensures !ValidateLocalFile(job.env.codec, w.files, Final(job, u), job.r.integrity) ==>
      match Served(job.env, u)
      case None =>
        Attempt(job, w, u) == SoftFailure(World(w.files - {Staging(job, u)}, w.fetched + [u]), FetchFailed(u))
      case Some(body) =>
        if !Verified(job, body) then
          Attempt(job, w, u) == HardFailure(
            World(w.files[Staging(job, u) := File(body, CREATE_MODE)], w.fetched + [u]),
            IntegrityMismatch(u, job.r.integrity))
        else if Staging(job, u) == Final(job, u) then
          Attempt(job, w, u) == HardFailure(World(w.files - {Staging(job, u)}, w.fetched + [u]), IoError(Staging(job, u)))
        else
          Attempt(job, w, u) == Succeeded(World(
            (w.files - {Staging(job, u)})[Final(job, u) := File(body, PermAfter(job.mode))],
            w.fetched + [u]))
  {
    var s := Staging(job, u);
    var p := Final(job, u);
    if !ValidateLocalFile(job.env.codec, w.files, p, job.r.integrity) && Served(job.env, u).Some? {
      var body := Served(job.env, u).value;
      if Verified(job, body) && s != p {
        var fs1 := w.files[s := File(body, CREATE_MODE)];
        assert ((fs1 - {p}) - {s})[p := File(body, CREATE_MODE)] == (w.files - {s})[p := File(body, CREATE_MODE)];
      }
    }
  }

  /**
   * Soft and hard failures of one pass: the pass fails softly exactly when
   * no valid local file exists and the fetch fails, and then it records
   * that fetch error; a pass that stops the loop does so with an integrity
   * mismatch or a file system error, never with a fetch error.
   */
  lemma AttemptFailureKinds(job: Job, w: World, u: string)
    ensures Attempt(job, w, u).SoftFailure? <==>
      !ValidateLocalFile(job.env.codec, w.files, Final(job, u), job.r.integrity) && Served(job.env, u).None?
    ensures Attempt(job, w, u).SoftFailure? ==> Attempt(job, w, u).error == FetchFailed(u)
    ensures Attempt(job, w, u).HardFailure? ==>
      Attempt(job, w, u).error.IntegrityMismatch? || Attempt(job, w, u).error.IoError?
  {
    AttemptEffect(job, w, u);
  }

  /**
   * What Download returns once the loop is over, as intended: success
   * exactly when some URL succeeded, otherwise the last fetch error, or an
   * internal error when no URL was tried at all.
   */
  function Outcome(ok: bool, lastError: Option<Error>): (r: Result<(), Error>)
    ensures r.Ok? <==> ok
    ensures !ok && lastError.Some? ==> r == Err(lastError.value)
    ensures !ok && lastError.None? ==> r == Err(NoUrlTried)
  {
    if ok then Ok(())
    else
      match lastError
      case Some(e) => Err(e)
      case None => Err(NoUrlTried)
  }

  /** The end of Download as written: with no error recorded it returns the (nil) parse error. */
  function OutcomeAsWritten(ok: bool, lastError: Option<Error>): (r: Result<(), Error>)
    ensures r.Ok? <==> ok || lastError.None?
    ensures r != Outcome(ok, lastError) <==> !ok && lastError.None?
  {
    if !ok then
      match lastError
      case Some(e) => Err(e)
      case None => Ok(())
    else Ok(())
  }

  /** The download loop over the remaining `urls`, with the locals `ok` and the last recorded error. */
  function RunUrls(job: Job, w: World, urls: seq<string>, ok: bool, lastError: Option<Error>)
    : (World, Result<(), Error>)
    decreases |urls|
  {
    if urls == [] then (w, Outcome(ok, lastError))
    else
      match Attempt(job, w, urls[0])
      case HardFailure(w', e) => (w', Err(e))
      case SoftFailure(w', e) => RunUrls(job, w', urls[1..], ok, Some(e))
      case Succeeded(w') => RunUrls(job, w', urls[1..], true, lastError)
  }

  /**
   * The loop's verdict: once some pass has succeeded only a hard failure
   * can still fail the loop; an error is a fetch error, an integrity
   * mismatch, a file system error, or the internal error, and the internal
   * error arises exactly when no URL was tried.
   */
  lemma {:induction false} RunUrlsVerdict(job: Job, w: World, urls: seq<string>, ok: bool, lastError: Option<Error>)
    requires lastError.None? || lastError.value.FetchFailed?
    ensures var res := RunUrls(job, w, urls, ok, lastError).1;
      && (ok ==> res.Ok? || res.error.IntegrityMismatch? || res.error.IoError?)
      && (res.Err? ==> res.error.FetchFailed? || res.error.IntegrityMismatch? || res.error.IoError? || res.error == NoUrlTried)
      && (res == Err(NoUrlTried) <==> urls == [] && !ok && lastError.None?)
    decreases |urls|
  {
    if urls != [] {
      AttemptFailureKinds(job, w, urls[0]);
      match Attempt(job, w, urls[0])
      case HardFailure(_, _) =>
      case SoftFailure(w', e) => RunUrlsVerdict(job, w', urls[1..], ok, Some(e));
      case Succeeded(w') => RunUrlsVerdict(job, w', urls[1..], true, lastError);
    }
  }

  /** Resource.Download: fail fast on a pin that does not parse, otherwise run the loop. */
  function DownloadSpec(env: Env, r: Resource, dir: string, mode: Mode, w: World): (World, Result<(), Error>)
  {
    match env.codec.algoOf(r.integrity)
    case None => (w, Err(MalformedIntegrity(r.integrity)))
    case Some(algo) => RunUrls(Job(env, r, dir, mode, algo), w, r.urls, false, None)
  }

  /**
   * The error kinds of Download: a pin that does not parse is reported
   * exactly when it does not parse, with nothing changed; the internal
   * error exactly when the pin parses and there is no URL.
   */
  lemma DownloadVerdict(env: Env, r: Resource, dir: string, mode: Mode, w: World)
    ensures var res := DownloadSpec(env, r, dir, mode, w);
      && (res.1.Err? && res.1.error.MalformedIntegrity? <==> env.codec.algoOf(r.integrity).None?)
      && (env.codec.algoOf(r.integrity).None? ==> res.0 == w)
      && (res.1 == Err(NoUrlTried) <==> env.codec.algoOf(r.integrity).Some? && r.urls == [])
  {
    if env.codec.algoOf(r.integrity).Some? {
      RunUrlsVerdict(Job(env, r, dir, mode, env.codec.algoOf(r.integrity).value), w, r.urls, false, None);
    }
  }
}
