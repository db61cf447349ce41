/**
 * The machine a download runs on: its file system, which the engine
 * changes in place, and the network, reached through a fixed oracle.
 * The methods are the engine's imperative operations; each is proved
 * against the specification functions of module Resources.
 */
module Host {
  import opened Wrappers
  import opened Digest
  import opened FileSystem
  import opened Resources

  class Machine {
    const env: Env
    var files: Files
    /** Every URL a GET was issued for, in order. */
    ghost var fetched: seq<string>

    ghost function State(): World
      reads this
    {
      World(files, fetched)
    }

    constructor (env: Env, files: Files)
      ensures this.env == env && State() == World(files, [])
    {
      this.env := env;
      this.files := files;
      fetched := [];
    }

    /** getUrl: one GET of `u`, its body streamed into `fileName`. */
    method GetUrl(u: string, fileName: string) returns (res: Result<string, Error>)
      modifies this
      ensures fetched == old(fetched) + [u]
      ensures res.Ok? <==> Served(env, u).Some?
      ensures res.Ok? ==> res.value == fileName && files == Write(old(files), fileName, Served(env, u).value)
      ensures res.Err? ==> res.error == FetchFailed(u) && files == old(files)
    {
      fetched := fetched + [u];
      var served := Served(env, u);
      if served.Some? {
        files := Write(files, fileName, served.value);
        res := Ok(fileName);
      } else {
        res := Err(FetchFailed(u));
      }
    }

    /** GetUrlToDir: fetch `u` into its staging file in `dir`, cleaning up on failure. */
    method GetUrlToDir(u: string, dir: string) returns (res: Result<string, Error>)
      modifies this
      ensures (State(), res) == StageFetch(env, old(State()), dir, u)
    {
      var staging := StagingPath(env.codec, dir, u);
      files := Remove(files, staging);
      files := Create(files, staging);
      res := GetUrl(u, staging);
      if res.Err? {
        files := Remove(files, staging);
      }
    }

    /** Resource.Download: the reuse check, fetch, verification and placement for each URL. */
    method Download(r: Resource, dir: string, mode: Mode) returns (res: Result<(), Error>)
      modifies this
      ensures (State(), res) == DownloadSpec(env, r, dir, mode, old(State()))
    {
      var parsed := env.codec.algoOf(r.integrity);
      if parsed.None? {
        return Err(MalformedIntegrity(r.integrity));
      }
      var algo := parsed.value;
      ghost var job := Job(env, r, dir, mode, algo);
      var ok := false;
      var lastError: Option<Error> := None;
      var i := 0;
      while i < |r.urls|
        invariant 0 <= i <= |r.urls|
        invariant RunUrls(job, State(), r.urls[i..], ok, lastError) == RunUrls(job, old(State()), r.urls, false, None)
      {
        var u := r.urls[i];
        ghost var before := State();
        assert r.urls[i..][0] == u && r.urls[i..][1..] == r.urls[i + 1..];
        var resPath := r.FinalPath(dir, u);
        if ValidateLocalFile(env.codec, files, resPath, r.integrity) {
          var chmodded := ApplyMode(files, resPath, mode);
          if chmodded.None? {
            return Err(IoError(resPath));
          }
          files := chmodded.value;
          ok := true;
          assert Attempt(job, before, u) == Succeeded(State());
        } else {
          var staged := GetUrlToDir(u, dir);
          if staged.Err? {
            lastError := Some(staged.error);
            assert Attempt(job, before, u) == SoftFailure(State(), staged.error);
          } else {
            var lpath := staged.value;
            var check := CheckIntegrity(env.codec, algo, files[lpath].data, r.integrity, u);
            if check.Err? {
              assert Attempt(job, before, u) == HardFailure(State(), check.error);
              return Err(check.error);
            }
            files := Remove(files, resPath);
            var renamed := Rename(files, lpath, resPath);
            if renamed.None? {
              files := Remove(files, lpath);
              assert Attempt(job, before, u) == HardFailure(State(), IoError(lpath));
              return Err(IoError(lpath));
            }
            files := renamed.value;
            var chmodded := ApplyMode(files, resPath, mode);
            if chmodded.None? {
              return Err(IoError(resPath));
            }
            files := chmodded.value;
            ok := true;
            assert Attempt(job, before, u) == Succeeded(State());
          }
        }
        i := i + 1;
      }
      res := Outcome(ok, lastError);
    }
  }
}
