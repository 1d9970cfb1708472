/** What an update guarantees, stated over UpdateRun (which the method
    Update is proved to follow): which failures leave the executable alone,
    what a failed commit restores, what success leaves behind, and what the
    dropped mismatch error in VerifySHA256Hash lets through. */
module UpdateProperties {
  import opened Common
  import opened Os
  import Hex
  import StrConv
  import opened SelfUpdate

  /** The three paths of one transaction. */
  function TransactionPaths(exec: Path): set<Path> {
    {exec, StagingPath(exec), BackupPath(exec)}
  }

  /** An unparseable current version is reported before anything else
      happens: whatever the network and the system would answer, no file
      changes. */
  lemma UnparseableVersionTouchesNothing(fs: Files, args: UpdateArgs, env: Env, sha256: Sha256, mode: Verification)
    requires CurrentVersion(args).None?
    ensures UpdateRun(fs, args, env, sha256, mode) == Run(Fail(InvalidCurrentVersion), fs)
  {
  }

  /** `ErrNoNeedUpdate` is returned exactly when the current version parses,
      the descriptor is accepted and its version is not greater; nothing is
      downloaded and no file changes. */
  lemma NoNeedUpdateExactly(fs: Files, args: UpdateArgs, env: Env, sha256: Sha256, mode: Verification)
    ensures var r := UpdateRun(fs, args, env, sha256, mode);
      r.result == Fail(NoNeedUpdate) <==>
        CurrentVersion(args).Some? && CheckLatestVersion(env.probe).Ok? &&
        CurrentVersion(args).value >= CheckLatestVersion(env.probe).value.version
    ensures var r := UpdateRun(fs, args, env, sha256, mode);
      r.result == Fail(NoNeedUpdate) ==> r.files == fs
  {
    match Plan(args, env)
    case Err(e) =>
    case Ok(t) =>
      var staged := Staged(fs, t, env, sha256, mode);
      StagedNeverNoNeedUpdate(fs, t, env, sha256, mode);
      SwappedNeverNoNeedUpdate(staged.files, t.exec, env);
  }

  /** Staging fails only with download, decoding or verification errors. */
  lemma StagedNeverNoNeedUpdate(fs: Files, t: Target, env: Env, sha256: Sha256, mode: Verification)
    ensures Staged(fs, t, env, sha256, mode).result != Fail(NoNeedUpdate)
  {
  }

  /** The swap fails only with filesystem errors. */
  lemma SwappedNeverNoNeedUpdate(fs: Files, exec: Path, env: Env)
    ensures Swapped(fs, exec, env).result != Fail(NoNeedUpdate)
  {
  }

  /** Every error found before the executable is located, and the missing
      executable itself, is returned as is and no file changes. */
  lemma PlanErrorTouchesNothing(fs: Files, args: UpdateArgs, env: Env, sha256: Sha256, mode: Verification)
    requires Plan(args, env).Err?
    ensures UpdateRun(fs, args, env, sha256, mode) == Run(Fail(Plan(args, env).error), fs)
  {
  }

  /** A descriptor fetch that fails (transport error, a status other than
      200, an unreadable body, a body that is not JSON, a hash of the wrong
      length) ends the update with that error, and no file changes. */
  lemma ProbeErrorTouchesNothing(fs: Files, args: UpdateArgs, env: Env, sha256: Sha256, mode: Verification)
    requires CurrentVersion(args).Some? && CheckLatestVersion(env.probe).Err?
    ensures UpdateRun(fs, args, env, sha256, mode) == Run(Fail(CheckLatestVersion(env.probe).error), fs)
  {
    PlanErrorTouchesNothing(fs, args, env, sha256, mode);
  }

  /** An executable that cannot be located ends a needed update with that
      error, before anything is downloaded. */
  lemma ExecutableNotFoundTouchesNothing(fs: Files, args: UpdateArgs, env: Env, sha256: Sha256, mode: Verification)
    requires CurrentVersion(args).Some? && CheckLatestVersion(env.probe).Ok?
    requires CurrentVersion(args).value < CheckLatestVersion(env.probe).value.version
    requires env.executable.None?
    ensures UpdateRun(fs, args, env, sha256, mode) == Run(Fail(ExecutableNotFound), fs)
  {
    PlanErrorTouchesNothing(fs, args, env, sha256, mode);
  }

  /** A hash string of the right length that is not hex is noticed only after
      the download: the decoder's error is returned and the downloaded build
      stays at the staging path. */
  lemma HexErrorAfterDownload(fs: Files, args: UpdateArgs, env: Env, sha256: Sha256, mode: Verification,
                              content: Bytes)
    requires Plan(args, env).Ok? && Hex.DecodeString(Plan(args, env).value.hash).Err?
    requires env.download == Response(StatusOK, Copied(content))
    ensures var e := Hex.DecodeString(Plan(args, env).value.hash).error;
      UpdateRun(fs, args, env, sha256, mode) ==
        Run(Fail(HexDecode(e)), fs[StagingPath(env.executable.value) := content])
  {
    var t := Plan(args, env).value;
    assert Downloaded(fs, StagingPath(t.exec), env.download).result.Pass?;
  }

  /** A descriptor whose hash string is not 64 bytes long ends the update with
      `ErrInvalidVersionInfo`, before any file changes. */
  lemma WrongHashLengthRejected(fs: Files, args: UpdateArgs, env: Env, sha256: Sha256, mode: Verification)
    requires CurrentVersion(args).Some?
    requires env.probe.Response? && env.probe.status == StatusOK && env.probe.body.Decoded?
    requires |env.probe.body.info.hash| != HashHexLength
    ensures UpdateRun(fs, args, env, sha256, mode) == Run(Fail(InvalidVersionInfo), fs)
  {
  }

  /** The hash of an accepted descriptor either decodes to exactly one SHA-256
      digest or holds a byte that is not a hex digit. */
  lemma AcceptedHashIsDigestSized(probe: Http<Body>)
    requires CheckLatestVersion(probe).Ok?
    ensures var d := Hex.DecodeString(CheckLatestVersion(probe).value.hash);
      (d.Ok? ==> |d.value| == Sha256Size) && (d.Err? ==> d.error.InvalidByte?)
  {
    Hex.DecodedLength(CheckLatestVersion(probe).value.hash, Sha256Size);
  }

  /** Files change only at the transaction's three paths, and not at all when
      the executable was not located. */
  lemma OnlyTransactionPathsChange(fs: Files, args: UpdateArgs, env: Env, sha256: Sha256, mode: Verification)
    ensures var r := UpdateRun(fs, args, env, sha256, mode);
      env.executable.None? ==> r.files == fs
    ensures var r := UpdateRun(fs, args, env, sha256, mode);
      env.executable.Some? ==>
        r.files - TransactionPaths(env.executable.value) == fs - TransactionPaths(env.executable.value)
  {
    match Plan(args, env)
    case Err(_) =>
    case Ok(t) =>
      var staged := Staged(fs, t, env, sha256, mode);
      AgreeOutsideWider(fs, staged.files, {StagingPath(t.exec)}, TransactionPaths(t.exec));
      if staged.result.Pass? {
        var r := Swapped(staged.files, t.exec, env);
        AgreeOutsideWider(staged.files, r.files, TransactionPaths(t.exec), TransactionPaths(t.exec));
      }
  }

  /** Two file maps that agree outside `inner` agree outside any wider set. */
  lemma AgreeOutsideWider(a: Files, b: Files, inner: set<Path>, outer: set<Path>)
    requires a - inner == b - inner && inner <= outer
    ensures a - outer == b - outer
  {
    assert a - outer == (a - inner) - outer;
    assert b - outer == (b - inner) - outer;
  }

  /** A failed download, an undecodable hash or a failed verification ends the
      update before any rename: only the staging file may have changed, so
      the executable and any old backup are exactly as they were. */
  lemma FailureBeforeRenameKeepsTarget(fs: Files, args: UpdateArgs, env: Env, sha256: Sha256, mode: Verification)
    requires Plan(args, env).Ok?
    requires Staged(fs, Plan(args, env).value, env, sha256, mode).result.Fail?
    ensures var r := UpdateRun(fs, args, env, sha256, mode);
      && r.result == Staged(fs, Plan(args, env).value, env, sha256, mode).result
      && r.files - {StagingPath(env.executable.value)} == fs - {StagingPath(env.executable.value)}
  {
  }

  /** When moving the executable to the backup path fails (the system refuses,
      or there is no file at the executable's path), that error is returned,
      the executable is as it was and the staged build is not promoted. */
  lemma BackupFailureKeepsTarget(fs: Files, args: UpdateArgs, env: Env, sha256: Sha256, mode: Verification)
    requires Plan(args, env).Ok?
    requires Staged(fs, Plan(args, env).value, env, sha256, mode).result.Pass?
    requires env.backupFault || env.executable.value !in fs
    ensures var exec := env.executable.value;
      var r := UpdateRun(fs, args, env, sha256, mode);
      && r.result == Fail(Os(LinkError(exec, BackupPath(exec))))
      && r.files == Staged(fs, Plan(args, env).value, env, sha256, mode).files
      && (exec in r.files <==> exec in fs)
      && (exec in fs ==> r.files[exec] == fs[exec])
  {
  }

  /** When moving the staged build into place fails, the commit's error is
      returned whatever the restore does. If the restore succeeds the
      executable holds its original bytes again and the backup is gone; if it
      fails there is no executable, and the original bytes are at the backup
      path. */
  lemma CommitFailureRestores(fs: Files, args: UpdateArgs, env: Env, sha256: Sha256, mode: Verification)
    requires Plan(args, env).Ok?
    requires Staged(fs, Plan(args, env).value, env, sha256, mode).result.Pass?
    requires !env.backupFault && env.executable.value in fs
    requires env.commitFault
    ensures var exec := env.executable.value;
      var r := UpdateRun(fs, args, env, sha256, mode);
      r.result == Fail(Os(LinkError(StagingPath(exec), exec)))
    ensures var exec := env.executable.value;
      var r := UpdateRun(fs, args, env, sha256, mode);
      !env.restoreFault ==> exec in r.files && r.files[exec] == fs[exec] && BackupPath(exec) !in r.files
    ensures var exec := env.executable.value;
      var r := UpdateRun(fs, args, env, sha256, mode);
      env.restoreFault ==> exec !in r.files && BackupPath(exec) in r.files && r.files[BackupPath(exec)] == fs[exec]
  {
  }

  /** An update succeeds exactly when the plan holds, the build is staged and
      verified, an executable exists to back up, and both renames go through. */
  lemma SuccessExactly(fs: Files, args: UpdateArgs, env: Env, sha256: Sha256, mode: Verification)
    ensures UpdateRun(fs, args, env, sha256, mode).result.Pass? <==>
      && Plan(args, env).Ok?
      && Staged(fs, Plan(args, env).value, env, sha256, mode).result.Pass?
      && env.executable.value in fs
      && !env.backupFault && !env.commitFault
  {
  }

  /** After a successful update the executable holds exactly the downloaded
      bytes, the staging file is gone, and the backup is gone unless its
      removal failed, in which case it holds the previous executable. */
  lemma SuccessInstallsDownload(fs: Files, args: UpdateArgs, env: Env, sha256: Sha256, mode: Verification)
    requires UpdateRun(fs, args, env, sha256, mode).result.Pass?
    ensures env.executable.Some? && env.executable.value in fs
    ensures env.download.Response? && env.download.body.Copied?
    ensures var exec := env.executable.value;
      var r := UpdateRun(fs, args, env, sha256, mode);
      && exec in r.files && r.files[exec] == env.download.body.content
      && StagingPath(exec) !in r.files
      && (BackupPath(exec) in r.files <==> env.removeFault)
      && (BackupPath(exec) in r.files ==> r.files[BackupPath(exec)] == fs[exec])
  {
    var t := Plan(args, env).value;
    var staged := Staged(fs, t, env, sha256, mode);
    assert staged.result.Pass? && staged.files == fs[StagingPath(t.exec) := env.download.body.content];
    SwapCommitted(staged.files, t.exec, env);
  }

  /** A swap that reports success moved the staged file onto the executable
      and left the old executable at the backup path only if removing it
      failed. */
  lemma SwapCommitted(fs: Files, exec: Path, env: Env)
    requires Swapped(fs, exec, env).result.Pass?
    ensures exec in fs && StagingPath(exec) in fs && !env.backupFault && !env.commitFault
    ensures var r := Swapped(fs, exec, env);
      && exec in r.files && r.files[exec] == fs[StagingPath(exec)]
      && StagingPath(exec) !in r.files
      && (BackupPath(exec) in r.files <==> env.removeFault)
      && (BackupPath(exec) in r.files ==> r.files[BackupPath(exec)] == fs[exec])
  {
    var dl, bak := StagingPath(exec), BackupPath(exec);
    var backup := Renamed(fs, exec, bak, env.backupFault);
    assert backup.result.Pass?;
    var commit := Renamed(backup.files, dl, exec, env.commitFault);
    assert commit.result.Pass?;
    assert commit.files[bak] == fs[exec] && commit.files[exec] == fs[dl] && dl !in commit.files;
  }

  /** The executable is never lost, unless both the commit and the restore
      are refused; and at its path there is only ever the old build or, after
      a success, the downloaded one. */
  lemma ExecutableNeverLost(fs: Files, args: UpdateArgs, env: Env, sha256: Sha256, mode: Verification, exec: Path)
    requires env.executable == Some(exec) && exec in fs
    ensures var r := UpdateRun(fs, args, env, sha256, mode);
      !(env.commitFault && env.restoreFault) ==> exec in r.files
    ensures var r := UpdateRun(fs, args, env, sha256, mode);
      exec in r.files ==>
        r.files[exec] == fs[exec] ||
        (r.result.Pass? && r.files[exec] == env.download.body.content)
  {
    match Plan(args, env)
    case Err(_) =>
    case Ok(t) =>
      var staged := Staged(fs, t, env, sha256, mode);
      var dl, bak := StagingPath(exec), BackupPath(exec);
      assert dl != exec && bak != exec && dl != bak;
      assert exec in staged.files && staged.files[exec] == fs[exec];
      if staged.result.Pass? {
        var backup := Renamed(staged.files, exec, bak, env.backupFault);
        if backup.result.Pass? {
          assert exec !in backup.files && backup.files[bak] == fs[exec];
          var commit := Renamed(backup.files, dl, exec, env.commitFault);
          if commit.result.Fail? {
            var restore := Renamed(commit.files, bak, exec, env.restoreFault);
            assert restore.result.Pass? ==> restore.files[exec] == fs[exec];
          } else {
            assert commit.files[exec] == env.download.body.content;
          }
        }
      }
  }

  /** With the fail-closed check, a successful update installs only a build
      whose digest is the one the descriptor published. */
  lemma FailClosedInstallsOnlyMatchingBuild(fs: Files, args: UpdateArgs, env: Env, sha256: Sha256)
    requires UpdateRun(fs, args, env, sha256, FailClosed).result.Pass?
    ensures var exec := env.executable.value;
      var r := UpdateRun(fs, args, env, sha256, FailClosed);
      var hash := CheckLatestVersion(env.probe).value.hash;
      Hex.DecodeString(hash).Ok? && exec in r.files && sha256(r.files[exec]) == Hex.DecodeString(hash).value
  {
    var t := Plan(args, env).value;
    var staged := Staged(fs, t, env, sha256, FailClosed);
    var dl := StagingPath(t.exec);
    assert staged.result.Pass?;
    assert Hex.DecodeString(t.hash).Ok? && dl in staged.files &&
      sha256(staged.files[dl]) == Hex.DecodeString(t.hash).value;
    SwapCommitted(staged.files, t.exec, env);
  }

  /** As written, the file's digest never matters: VerifySHA256Hash gives the
      same answer for any expected value and any hash function. */
  lemma VerifyIgnoresDigest(fs: Files, path: Path, expected1: Bytes, expected2: Bytes, access: Access, sha1: Sha256, sha2: Sha256)
    ensures VerifySHA256Hash(fs, path, expected1, access, sha1) == VerifySHA256Hash(fs, path, expected2, access, sha2)
  {
  }

  /** Hence, as written, a whole update does not depend on the digest of
      what it downloaded. */
  lemma AsWrittenUpdateIgnoresDigest(fs: Files, args: UpdateArgs, env: Env, sha1: Sha256, sha2: Sha256)
    ensures UpdateRun(fs, args, env, sha1, AsWritten) == UpdateRun(fs, args, env, sha2, AsWritten)
  {
    match Plan(args, env)
    case Err(_) =>
    case Ok(t) =>
      StagedIgnoresDigest(fs, t, env, sha1, sha2);
  }

  /** As written, staging and verifying do not depend on the hash function. */
  lemma StagedIgnoresDigest(fs: Files, t: Target, env: Env, sha1: Sha256, sha2: Sha256)
    ensures Staged(fs, t, env, sha1, AsWritten) == Staged(fs, t, env, sha2, AsWritten)
  {
    var d := Downloaded(fs, StagingPath(t.exec), env.download);
    if d.result.Pass? && Hex.DecodeString(t.hash).Ok? {
      VerifyIgnoresDigest(d.files, StagingPath(t.exec), Hex.DecodeString(t.hash).value,
                          Hex.DecodeString(t.hash).value, env.stagedAccess, sha1, sha2);
    }
  }

  /** The digest every input hashes to under ConstantSha. */
  function ZeroDigest(): Digest {
    seq(32, _ => 0 as byte)
  }

  /** The current version "n" for a single decimal digit n. */
  lemma OneDigitVersion(args: UpdateArgs, d: nat)
    requires d < 10 && args.currentVersion == [(d + '0' as int) as char]
    ensures CurrentVersion(args) == Some(d)
  {
    var s := args.currentVersion;
    assert StrConv.FormatInt(d) == s;
    StrConv.CurrentVersionRoundTrip("", d, "");
    assert "" + s + "" == s;
  }

  /** A digest that ConstantSha never produces. */
  function PublishedDigest(): Digest {
    seq(32, _ => 0x11 as byte)
  }

  /** A stand-in for SHA-256 that maps everything to zeros. */
  function ConstantSha(m: Bytes): Digest {
    ZeroDigest()
  }

  /** The files, descriptor and answers of a run in which every step works. */
  function SmoothEnv(version: Int64, hash: Bytes, exec: Path, payload: Bytes): Env {
    Env(Response(StatusOK, Decoded(VersionInfo(version, hash))), Some(exec),
        Response(StatusOK, Copied(payload)), Readable, false, false, false, false)
  }

  /** When every step goes through, the staged build replaces the executable
      and both helper paths end up empty. With the fail-closed check this
      needs the published digest to be the build's; as written it does not. */
  lemma SmoothUpdate(fs: Files, args: UpdateArgs, version: Int64, hash: Bytes, exec: Path, payload: Bytes,
                     sha256: Sha256, mode: Verification)
    requires CurrentVersion(args).Some? && CurrentVersion(args).value < version
    requires |hash| == HashHexLength && Hex.DecodeString(hash).Ok?
    requires mode.FailClosed? ==> sha256(payload) == Hex.DecodeString(hash).value
    requires exec in fs
    ensures UpdateRun(fs, args, SmoothEnv(version, hash, exec, payload), sha256, mode) ==
      Run(Pass, (fs - {StagingPath(exec), BackupPath(exec)})[exec := payload])
  {
    var env := SmoothEnv(version, hash, exec, payload);
    var t := Target(exec, hash);
    SmoothPlan(args, version, hash, exec, payload);
    var dl, bak := StagingPath(exec), BackupPath(exec);
    var staged := fs[dl := payload];
    SmoothStaged(fs, version, hash, exec, payload, sha256, mode);
    SwapSucceeds(staged, exec, env);
    assert (staged - {dl, bak})[exec := payload] == (fs - {dl, bak})[exec := payload];
  }

  /** A newer version with a 64-byte hash string and a located executable
      lead to that executable and hash. */
  lemma SmoothPlan(args: UpdateArgs, version: Int64, hash: Bytes, exec: Path, payload: Bytes)
    requires CurrentVersion(args).Some? && CurrentVersion(args).value < version
    requires |hash| == HashHexLength
    ensures Plan(args, SmoothEnv(version, hash, exec, payload)) == Ok(Target(exec, hash))
  {
  }

  /** With the download answered in full, staging leaves the payload at the
      staging path and reports what the check says about it. */
  lemma SmoothStaged(fs: Files, version: Int64, hash: Bytes, exec: Path, payload: Bytes,
                     sha256: Sha256, mode: Verification)
    requires Hex.DecodeString(hash).Ok?
    ensures var dl := StagingPath(exec);
      Staged(fs, Target(exec, hash), SmoothEnv(version, hash, exec, payload), sha256, mode) ==
        Run(Verify(mode, fs[dl := payload], dl, Hex.DecodeString(hash).value, Readable, sha256), fs[dl := payload])
  {
    var dl := StagingPath(exec);
    assert Downloaded(fs, dl, Response(StatusOK, Copied(payload))) == Run(Pass, fs[dl := payload]);
  }

  /** With the fail-closed check, a build whose digest differs from the
      published one is refused after staging, whatever the renames and the
      removal would have answered: only the staging file changed. */
  lemma MismatchRefused(fs: Files, args: UpdateArgs, env: Env, sha256: Sha256, content: Bytes)
    requires Plan(args, env).Ok? && Hex.DecodeString(Plan(args, env).value.hash).Ok?
    requires env.download == Response(StatusOK, Copied(content)) && env.stagedAccess.Readable?
    requires sha256(content) != Hex.DecodeString(Plan(args, env).value.hash).value
    ensures UpdateRun(fs, args, env, sha256, FailClosed) ==
      Run(Fail(HashMismatch), fs[StagingPath(env.executable.value) := content])
  {
    var t := Plan(args, env).value;
    var dl := StagingPath(t.exec);
    assert Downloaded(fs, dl, env.download) == Run(Pass, fs[dl := content]);
  }

  /** When every rename and the removal go through, the staged build replaces
      the executable and both helper paths end up empty. */
  lemma SwapSucceeds(fs: Files, exec: Path, env: Env)
    requires exec in fs && StagingPath(exec) in fs
    requires !env.backupFault && !env.commitFault && !env.removeFault
    ensures Swapped(fs, exec, env) ==
      Run(Pass, (fs - {StagingPath(exec), BackupPath(exec)})[exec := fs[StagingPath(exec)]])
  {
    var dl, bak := StagingPath(exec), BackupPath(exec);
    var backup := Renamed(fs, exec, bak, false);
    assert backup.files == (fs - {exec})[bak := fs[exec]];
    var commit := Renamed(backup.files, dl, exec, false);
    assert commit.files == (backup.files - {dl})[exec := fs[dl]];
    var cleanup := Removed(commit.files, bak, false);
    assert cleanup.files == (fs - {dl, bak})[exec := fs[dl]];
  }

  /** The defect made concrete: updating from version "3" to 5, with a hash
      function under which the build's digest is not the published one, the
      update as written installs the build and the fail-closed check refuses
      it. */
  lemma AsWrittenInstallsMismatchedBuild(fs: Files, args: UpdateArgs, exec: Path, payload: Bytes)
    requires args.currentVersion == "3"
    requires exec in fs
    ensures var env := SmoothEnv(5, Hex.EncodeToString(PublishedDigest()), exec, payload);
      && ConstantSha(payload) != PublishedDigest()
      && UpdateRun(fs, args, env, ConstantSha, AsWritten) ==
           Run(Pass, (fs - {StagingPath(exec), BackupPath(exec)})[exec := payload])
      && UpdateRun(fs, args, env, ConstantSha, FailClosed) ==
           Run(Fail(HashMismatch), fs[StagingPath(exec) := payload])
  {
    var hash := Hex.EncodeToString(PublishedDigest());
    assert ZeroDigest()[0] != PublishedDigest()[0];
    Hex.DecodeEncode(PublishedDigest());
    assert CurrentVersion(args) == Some(3) by { OneDigitVersion(args, 3); }
    SmoothUpdate(fs, args, 5, hash, exec, payload, ConstantSha, AsWritten);
    SmoothPlan(args, 5, hash, exec, payload);
    MismatchRefused(fs, args, SmoothEnv(5, hash, exec, payload), ConstantSha, payload);
  }

  /** An update from "3" to version 5 whose descriptor carries the hex digest
      of the payload installs the payload, for any hash function. */
  lemma NewerVersionInstalled(fs: Files, args: UpdateArgs, exec: Path, payload: Bytes, sha256: Sha256)
    requires args.currentVersion == "3"
    requires exec in fs
    ensures var env := SmoothEnv(5, Hex.EncodeToString(sha256(payload)), exec, payload);
      UpdateRun(fs, args, env, sha256, FailClosed) ==
        Run(Pass, (fs - {StagingPath(exec), BackupPath(exec)})[exec := payload])
  {
    var digest := sha256(payload);
    var hash := Hex.EncodeToString(digest);
    Hex.DecodeEncode(digest);
    assert CurrentVersion(args) == Some(3) by { OneDigitVersion(args, 3); }
    SmoothUpdate(fs, args, 5, hash, exec, payload, sha256, FailClosed);
  }

  /** Current version "7" against a descriptor for version 5: no update is
      needed and no file changes. */
  lemma OlderVersionNotInstalled(fs: Files, args: UpdateArgs, env: Env, sha256: Sha256, mode: Verification,
                                 hash: Bytes)
    requires args.currentVersion == "7"
    requires |hash| == HashHexLength
    requires env.probe == Response(StatusOK, Decoded(VersionInfo(5, hash)))
    ensures UpdateRun(fs, args, env, sha256, mode) == Run(Fail(NoNeedUpdate), fs)
  {
    assert CurrentVersion(args) == Some(7) by { OneDigitVersion(args, 7); }
    assert CheckLatestVersion(env.probe) == Ok(VersionInfo(5, hash));
    NoNeedUpdateExactly(fs, args, env, sha256, mode);
  }
}
