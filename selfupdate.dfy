/** Package selfupdate (update.go): a running program replaces its own
    executable with a newer build. The network, the executable's location,
    the operating system's refusals and SHA-256 are inputs; the files are an
    Os.FileSystem. The update is specified by the function UpdateRun, built
    from three phases (Plan, Staged, Swapped), and performed by the method
    Update, which is proved to agree with it. */
module SelfUpdate {
  import opened Common
  import opened Os
  import Hex
  import StrConv

  /** `sha256.Size`. */
  const Sha256Size: nat := 32

  /** The length the hash string of a version descriptor must have. */
  const HashHexLength: nat := Sha256Size * 2

  /** `http.StatusOK`. */
  const StatusOK: int := 200

  type Digest = d: Bytes | |d| == Sha256Size witness seq(32, _ => 0 as byte)

  /** SHA-256 is left uninterpreted: any function to 32-byte digests. */
  type Sha256 = Bytes -> Digest

  /** The error values `Update` can return. */
  datatype Error =
    | InvalidCurrentVersion          // the current version does not parse
    | HttpGetFailed                  // `http.Get` returned an error
    | InvalidResponse(status: int)   // a status other than 200
    | BodyReadFailed                 // reading the descriptor body failed
    | JsonDecodeFailed               // the descriptor is not the expected JSON
    | InvalidVersionInfo             // `ErrInvalidVersionInfo`
    | NoNeedUpdate                   // `ErrNoNeedUpdate`
    | ExecutableNotFound             // the executable's path is unknown
    | CopyFailed                     // the download broke off while copying
    | HexDecode(hexError: Hex.HexError)
    | Os(osError: OsError)
    | HashMismatch                   // only the fail-closed check reports this

  /** The `version` struct of a descriptor; `hash` is the hex string as bytes. */
  datatype VersionInfo = VersionInfo(version: Int64, hash: Bytes)

  /** What an HTTP GET yields: a transport error or a status and a body. */
  datatype Http<T> = GetFailed | Response(status: int, body: T)

  /** The body of the descriptor response, after reading and JSON decoding. */
  datatype Body = Unreadable | NotJson | Decoded(info: VersionInfo)

  /** Saving a download body: the file may not open, the copy may break off
      after writing some bytes, or all of `content` is written. */
  datatype Transfer = OpenFailed | CopyInterrupted(written: Bytes) | Copied(content: Bytes)

  /** Whether a file can be opened and read through to its end. */
  datatype Access = Readable | OpenFault | ReadFault

  /** An error (or none) together with the files it left behind. */
  datatype Run = Run(result: Outcome<Error>, files: Files)

  /** `CheckLatestVersion`: a descriptor is accepted only from a 200 response
      that decodes, and only if its hash string has exactly 64 bytes, so a
      descriptor without a hash is rejected. */
  function CheckLatestVersion(probe: Http<Body>): (r: Result<VersionInfo, Error>)
    ensures r.Ok? <==>
      probe.Response? && probe.status == StatusOK && probe.body.Decoded? &&
      |probe.body.info.hash| == HashHexLength
    ensures r.Ok? ==> r.value == probe.body.info && r.value.hash != []
    ensures (probe.Response? && probe.status == StatusOK && probe.body.Decoded? &&
             |probe.body.info.hash| != HashHexLength) ==> r == Err(InvalidVersionInfo)
    ensures probe.GetFailed? ==> r == Err(HttpGetFailed)
    ensures probe.Response? && probe.status != StatusOK ==> r == Err(InvalidResponse(probe.status))
    ensures probe.Response? && probe.status == StatusOK && probe.body.Unreadable? ==> r == Err(BodyReadFailed)
    ensures probe.Response? && probe.status == StatusOK && probe.body.NotJson? ==> r == Err(JsonDecodeFailed)
  {
    match probe
    case GetFailed => Err(HttpGetFailed)
    case Response(status, body) =>
      if status != StatusOK then Err(InvalidResponse(status))
      else match body
        case Unreadable => Err(BodyReadFailed)
        case NotJson => Err(JsonDecodeFailed)
        case Decoded(info) =>
          if |info.hash| != HashHexLength then Err(InvalidVersionInfo) else Ok(info)
  }

  /** `VerifySHA256Hash` as written: the digest is computed and compared, but
      the mismatch error is built and dropped, so the check passes whenever
      the file can be read. */
  function VerifySHA256Hash(fs: Files, path: Path, expected: Bytes, access: Access, sha256: Sha256): (r: Outcome<Error>)
    ensures r == Pass <==> path in fs && access.Readable?
  {
    if path !in fs || access.OpenFault? then Fail(Os(PathError("open", path)))
    else if access.ReadFault? then Fail(Os(PathError("read", path)))
    else
      var actual := sha256(fs[path]);
      var mismatch := expected != actual;
      Pass
  }

  /** The check VerifySHA256Hash is meant to be: it also fails on a mismatch. */
  function VerifyDigest(fs: Files, path: Path, expected: Bytes, access: Access, sha256: Sha256): (r: Outcome<Error>)
    ensures r == Pass <==> path in fs && access.Readable? && sha256(fs[path]) == expected
    ensures r == Fail(HashMismatch) <==> path in fs && access.Readable? && sha256(fs[path]) != expected
  {
    if path !in fs || access.OpenFault? then Fail(Os(PathError("open", path)))
    else if access.ReadFault? then Fail(Os(PathError("read", path)))
    else if sha256(fs[path]) != expected then Fail(HashMismatch)
    else Pass
  }

  /** Which of the two checks an update runs. */
  datatype Verification = AsWritten | FailClosed

  function Verify(mode: Verification, fs: Files, path: Path, expected: Bytes, access: Access, sha256: Sha256): Outcome<Error> {
    match mode
    case AsWritten => VerifySHA256Hash(fs, path, expected, access, sha256)
    case FailClosed => VerifyDigest(fs, path, expected, access, sha256)
  }

  /** Where the new build is downloaded to: the executable's path plus ".dl". */
  function StagingPath(exec: Path): (p: Path)
    ensures |p| == |exec| + 3 && p[..|exec|] == exec && p != exec
  {
    exec + ".dl"
  }

  /** Where the running build is kept meanwhile: the path plus ".bak". */
  function BackupPath(exec: Path): (p: Path)
    ensures |p| == |exec| + 4 && p[..|exec|] == exec
    ensures p != exec && p != StagingPath(exec)
  {
    exec + ".bak"
  }

  /** `Download`: a transport error, a status other than 200 or a file that
      does not open leave the files alone; otherwise `savePath` is created or
      truncated and holds what was copied, all of it only on success. */
  function Downloaded(fs: Files, savePath: Path, fetch: Http<Transfer>): (r: Run)
    ensures r.result.Pass? <==> fetch.Response? && fetch.status == StatusOK && fetch.body.Copied?
    ensures r.result.Pass? ==> r.files == fs[savePath := fetch.body.content]
    ensures fetch.Response? && fetch.status == StatusOK && fetch.body.CopyInterrupted? ==>
      r.files == fs[savePath := fetch.body.written]
    ensures !(fetch.Response? && fetch.status == StatusOK && !fetch.body.OpenFailed?) ==> r.files == fs
  {
    match fetch
    case GetFailed => Run(Fail(HttpGetFailed), fs)
    case Response(status, transfer) =>
      if status != StatusOK then Run(Fail(InvalidResponse(status)), fs)
      else match transfer
        case OpenFailed => Run(Fail(Os(PathError("open", savePath))), fs)
        case CopyInterrupted(written) => Run(Fail(CopyFailed), fs[savePath := written])
        case Copied(content) => Run(Pass, fs[savePath := content])
  }

  method Download(fs: FileSystem, savePath: Path, fetch: Http<Transfer>) returns (err: Outcome<Error>)
    modifies fs
    ensures Run(err, fs.files) == Downloaded(old(fs.files), savePath, fetch)
  {
    if fetch.GetFailed? {
      return Fail(HttpGetFailed);
    }
    if fetch.status != StatusOK {
      return Fail(InvalidResponse(fetch.status));
    }
    match fetch.body
    case OpenFailed =>
      return Fail(Os(PathError("open", savePath)));
    case CopyInterrupted(written) =>
      fs.WriteFile(savePath, written);
      return Fail(CopyFailed);
    case Copied(content) =>
      fs.WriteFile(savePath, content);
      return Pass;
  }

  /** `UpdateArgs`. The URLs only say which answers `Env` supplies. */
  datatype UpdateArgs = UpdateArgs(currentVersion: string, versionUrl: string, downloadUrl: string)

  /** Everything the world answers during one update. */
  datatype Env = Env(
    probe: Http<Body>,            // GET of the version URL
    executable: Option<Path>,     // the running executable's path, if found
    download: Http<Transfer>,     // GET of the download URL into the staging file
    stagedAccess: Access,         // opening and reading the staging file to hash it
    backupFault: bool,            // the system refuses rename(exec, backup)
    commitFault: bool,            // the system refuses rename(staging, exec)
    restoreFault: bool,           // the system refuses rename(backup, exec)
    removeFault: bool)            // the system refuses remove(backup)

  /** The executable to replace and the hash string it must match. */
  datatype Target = Target(exec: Path, hash: Bytes)

  /** The current version as `Update` reads it. */
  function CurrentVersion(args: UpdateArgs): Option<Int64> {
    StrConv.ParseInt(StrConv.TrimSpace(args.currentVersion))
  }

  /** The decisions taken before any file is touched: parse the current
      version, fetch the descriptor, compare, locate the executable. */
  function Plan(args: UpdateArgs, env: Env): (r: Result<Target, Error>)
    ensures r.Ok? <==>
      && CurrentVersion(args).Some? && CheckLatestVersion(env.probe).Ok?
      && CurrentVersion(args).value < CheckLatestVersion(env.probe).value.version
      && env.executable.Some?
    ensures r.Ok? ==> r.value == Target(env.executable.value, CheckLatestVersion(env.probe).value.hash)
    ensures CurrentVersion(args).None? ==> r == Err(InvalidCurrentVersion)
    ensures CurrentVersion(args).Some? && CheckLatestVersion(env.probe).Err? ==>
      r == Err(CheckLatestVersion(env.probe).error)
    ensures (CurrentVersion(args).Some? && CheckLatestVersion(env.probe).Ok? &&
             CurrentVersion(args).value >= CheckLatestVersion(env.probe).value.version) ==>
      r == Err(NoNeedUpdate)
    ensures (CurrentVersion(args).Some? && CheckLatestVersion(env.probe).Ok? &&
             CurrentVersion(args).value < CheckLatestVersion(env.probe).value.version &&
             env.executable.None?) ==>
      r == Err(ExecutableNotFound)
  {
    match CurrentVersion(args)
    case None => Err(InvalidCurrentVersion)
    case Some(current) =>
      match CheckLatestVersion(env.probe)
      case Err(e) => Err(e)
      case Ok(latest) =>
        if current >= latest.version then Err(NoNeedUpdate)
        else match env.executable
          case None => Err(ExecutableNotFound)
          case Some(exec) => Ok(Target(exec, latest.hash))
  }

  /** Download to the staging path, decode the expected hash, verify. Only the
      staging path can change. */
  function Staged(fs: Files, t: Target, env: Env, sha256: Sha256, mode: Verification): (r: Run)
    ensures r.files - {StagingPath(t.exec)} == fs - {StagingPath(t.exec)}
    ensures var dl := StagingPath(t.exec);
      r.result.Pass? <==>
        && env.download.Response? && env.download.status == StatusOK && env.download.body.Copied?
        && Hex.DecodeString(t.hash).Ok?
        && Verify(mode, fs[dl := env.download.body.content], dl, Hex.DecodeString(t.hash).value,
                  env.stagedAccess, sha256) == Pass
    ensures r.result.Pass? ==> r.files == fs[StagingPath(t.exec) := env.download.body.content]
    ensures var d := Downloaded(fs, StagingPath(t.exec), env.download);
      d.result.Fail? ==> r == d
    ensures var d := Downloaded(fs, StagingPath(t.exec), env.download);
      d.result.Pass? && Hex.DecodeString(t.hash).Err? ==>
        r == Run(Fail(HexDecode(Hex.DecodeString(t.hash).error)), d.files)
  {
    var dl := StagingPath(t.exec);
    var d := Downloaded(fs, dl, env.download);
    if d.result.Fail? then d
    else match Hex.DecodeString(t.hash)
      case Err(e) => Run(Fail(HexDecode(e)), d.files)
      case Ok(expected) => Run(Verify(mode, d.files, dl, expected, env.stagedAccess, sha256), d.files)
  }

  /** Move the executable to the backup path, move the staged build into its
      place, and restore the backup if that fails; on success remove the
      backup, ignoring whether that works. */
  function Swapped(fs: Files, exec: Path, env: Env): (r: Run)
    ensures var paths := {exec, StagingPath(exec), BackupPath(exec)};
      r.files - paths == fs - paths
  {
    var dl := StagingPath(exec);
    var bak := BackupPath(exec);
    var backup := Renamed(fs, exec, bak, env.backupFault);
    if backup.result.Fail? then Run(Fail(Os(backup.result.error)), backup.files)
    else
      var commit := Renamed(backup.files, dl, exec, env.commitFault);
      if commit.result.Fail? then
        var restore := Renamed(commit.files, bak, exec, env.restoreFault);
        Run(Fail(Os(commit.result.error)), restore.files)
      else
        var cleanup := Removed(commit.files, bak, env.removeFault);
        Run(Pass, cleanup.files)
  }

  /** What `Update` returns and leaves behind, starting from files `fs`. */
  function UpdateRun(fs: Files, args: UpdateArgs, env: Env, sha256: Sha256, mode: Verification): Run {
    match Plan(args, env)
    case Err(e) => Run(Fail(e), fs)
    case Ok(t) =>
      var staged := Staged(fs, t, env, sha256, mode);
      if staged.result.Fail? then staged else Swapped(staged.files, t.exec, env)
  }

  /** `Update`, one step after the other with the early returns of the
      source; the restore and the removal of the backup have their errors
      ignored. */
  method Update(fs: FileSystem, args: UpdateArgs, env: Env, sha256: Sha256, mode: Verification)
    returns (err: Outcome<Error>)
    modifies fs
    ensures Run(err, fs.files) == UpdateRun(old(fs.files), args, env, sha256, mode)
  {
    var currentVersion := StrConv.ParseInt(StrConv.TrimSpace(args.currentVersion));
    if currentVersion.None? {
      return Fail(InvalidCurrentVersion);
    }
    var latestVersion := CheckLatestVersion(env.probe);
    if latestVersion.Err? {
      return Fail(latestVersion.error);
    }
    if currentVersion.value >= latestVersion.value.version {
      return Fail(NoNeedUpdate);
    }
    if env.executable.None? {
      return Fail(ExecutableNotFound);
    }
    var execPath := env.executable.value;
    var dlPath := StagingPath(execPath);
    var backupPath := BackupPath(execPath);

    err := Download(fs, dlPath, env.download);
    if err.Fail? {
      return;
    }
    var hash := Hex.DecodeString(latestVersion.value.hash);
    if hash.Err? {
      return Fail(HexDecode(hash.error));
    }
    err := Verify(mode, fs.files, dlPath, hash.value, env.stagedAccess, sha256);
    if err.Fail? {
      return;
    }

    var renameErr := fs.Rename(execPath, backupPath, env.backupFault);
    if renameErr.Fail? {
      return Fail(Os(renameErr.error));
    }
    renameErr := fs.Rename(dlPath, execPath, env.commitFault);
    if renameErr.Fail? {
      var restoreErr := fs.Rename(backupPath, execPath, env.restoreFault);
      return Fail(Os(renameErr.error));
    }
    var removeErr := fs.Remove(backupPath, env.removeFault);
    return Pass;
  }
}
