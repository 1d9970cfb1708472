# selfupdate: a verified model of the update transaction

Package `selfupdate` (`update.go`) lets a running program replace its own
executable with a newer build. `Update` goes through these steps in order:

1. Parse the current version string (trimmed, base 10, 64 bits).
2. Fetch a JSON version descriptor `{version, hash}`, then reject it unless
   the HTTP status is 200 and the hash string is 64 bytes long.
3. Return `ErrNoNeedUpdate` unless the descriptor's version is greater than
   the current one.
4. Locate the running executable.
5. Download the new build to `<exec>.dl`.
6. Hex-decode the expected hash and check the staged file's SHA-256 against it.
7. Rename `<exec>` to `<exec>.bak`.
8. Rename `<exec>.dl` to `<exec>`. If that fails, rename the backup back.
9. Remove the backup on a best-effort basis.

Every step can fail, and which early return is taken decides whether the
live executable was touched.

The model has these modules:

- `Common`: bytes, 64-bit integers, and `Option`, `Result` and `Outcome`.
- `Hex`: Go's `hex.DecodeString`, with `EncodeToString` as its inverse.
- `StrConv`: `strings.TrimSpace` and `strconv.ParseInt(s, 10, 64)`, with
  `FormatInt` as the reference that parsing inverts.
- `Os`: the filesystem as a map from paths to contents. Each `rename` and
  `remove` is specified by a function and performed in place by a method of
  the class `FileSystem`.
- `SelfUpdate`: the package itself. `CheckLatestVersion`,
  `VerifySHA256Hash`, `Download` and the path derivation each get a
  definition. The transaction is specified by `UpdateRun`, which is built
  from three phases: `Plan`, `Staged` and `Swapped`. The imperative method
  `Update` performs the transaction on a `FileSystem` and is proved to end
  in exactly the error and files `UpdateRun` gives.
- `UpdateProperties`: what the transaction guarantees on each path through
  it, and what the defect in `VerifySHA256Hash` lets through.

The world's answers are inputs collected in an `Env` record:

- the descriptor response
- the executable's path
- the download
- whether the staged file can be read
- whether each rename and the removal is refused

SHA-256 is an arbitrary function to 32-byte digests, passed as a parameter.
`Update` takes a `Verification` mode:

- `AsWritten` runs `VerifySHA256Hash` exactly as the source has it.
- `FailClosed` runs the corrected `VerifyDigest`.

Both transactions are proved (see Findings).

## Model

| member | source | states |
|---|---|---|
| Hex.DecodeString | update.go:140-143 | The decode succeeds exactly when the string has even length and all hex digits; the result is half as long and byte k is the pair (2k, 2k+1). The length error is returned exactly for an odd-length string of hex digits; an invalid-byte error names a non-digit byte preceded only by digits. |
| Hex.EncodeToString | update.go:27 | The hex text of b is twice as long as b. |
| Hex.DecodeEncode | update.go:140 | Decoding the hex text of any byte string gives back that byte string. |
| Hex.DecodedLength | update.go:140 | A 2n-byte string decodes to exactly n bytes. If it fails, it fails on an invalid byte, never on its length. |
| StrConv.TrimSpace | update.go:114 | The result is the slice of s between a prefix and a suffix that are all white space; if it is not empty, it neither starts nor ends with white space. |
| StrConv.TrimSpacePadding | update.go:114 | Trimming white space padding around a word that neither starts nor ends with white space gives back the word. |
| StrConv.ParseInt | update.go:114-117 | An accepted string is non-empty and is an optional sign followed by decimal digits, with at least one digit. A negative result comes only from a leading '-'. |
| StrConv.ParseIntSigned | update.go:114-117 | A digit string, bare or after '+', parses to its value when that is at most 2^63-1 and otherwise fails. After '-' it parses to the negated value when that is at least -2^63 and otherwise fails. |
| StrConv.ParseFormat | update.go:114 | Parsing the decimal form of every 64-bit integer gives back that integer. |
| StrConv.CurrentVersionRoundTrip | update.go:114-117 | Any 64-bit version written in decimal and padded with white space is read back as that version. |
| Os.Renamed | update.go:150-159 | A rename succeeds exactly when it is not refused and the source exists. On failure it returns a LinkError naming both paths and leaves the files unchanged. On success the destination holds the source's bytes and the source is gone. No other path changes. |
| Os.Removed | update.go:161 | A removal succeeds exactly when it is not refused and the path exists. Failure leaves the files unchanged; success deletes the path and nothing else. |
| Os.FileSystem.Rename | update.go:150 | The in-place rename leaves the error and the files that Renamed specifies. |
| Os.FileSystem.Remove | update.go:161 | The in-place removal leaves the error and the files that Removed specifies. |
| Os.FileSystem.WriteFile | update.go:93-99 | After an open that creates or truncates, and the copy, the path holds exactly the written bytes; nothing else changes. |
| SelfUpdate.CheckLatestVersion | update.go:30-58 | A descriptor is accepted exactly from a 200 response whose body decodes and whose hash string has 64 bytes, and the decoded descriptor is returned unchanged. Each failure has its own error: a transport error, the status of a non-200 response, an unreadable body, a body that is not JSON, and ErrInvalidVersionInfo for a hash of any other length. |
| SelfUpdate.VerifySHA256Hash | update.go:61-80 | As written, the check passes exactly when the file exists and can be opened and read, whatever its digest. |
| SelfUpdate.VerifyDigest | update.go:75-77 | The corrected check passes exactly when the file is readable and its SHA-256 equals the expected bytes. It reports a mismatch exactly when the file is readable and the digests differ. |
| SelfUpdate.StagingPath | update.go:132 | The staging path extends the executable's path by ".dl" and differs from it. |
| SelfUpdate.BackupPath | update.go:133 | The backup path extends the executable's path by ".bak" and differs from both the executable's path and the staging path. |
| SelfUpdate.Downloaded | update.go:82-105 | A download succeeds exactly on a 200 response whose body is fully copied, and the save path then holds the body. An interrupted copy leaves the bytes written so far. A transport error, another status or a file that does not open leaves the files unchanged. |
| SelfUpdate.Download | update.go:82-105 | The in-place download returns the error and leaves the files that Downloaded specifies. |
| SelfUpdate.Plan | update.go:113-131 | The update goes ahead exactly when the current version (CurrentVersion: the trimmed string parsed as a 64-bit decimal) parses, the descriptor is accepted and newer, and the executable is located. The target is then the executable and the descriptor's hash. Otherwise the first failing check gives the error: InvalidCurrentVersion, the descriptor fetch's own error, ErrNoNeedUpdate, or ExecutableNotFound. |
| SelfUpdate.Staged | update.go:135-148 | Download, hex decode and verification change no file except the staging path. Staging passes exactly when the download is a fully copied 200 response, the hash string decodes, and the check passes on the downloaded bytes; the staging path then holds those bytes. A failed download returns the download's error and files. After a successful download, a hash string that does not decode gives the decoder's error. |
| SelfUpdate.Swapped | update.go:150-163 | Backup, commit, restore and removal change no file outside the executable, staging and backup paths. |
| SelfUpdate.Update | update.go:113-164 | The imperative transaction on the filesystem returns exactly the error and leaves exactly the files that UpdateRun specifies. UpdateRun, the specification every property below is stated over, composes Plan, Staged and Swapped with the source's early returns. |
| UpdateProperties.UnparseableVersionTouchesNothing | update.go:114-117 | If the current version does not parse, the update returns that error whatever the world answers, and no file changes. |
| UpdateProperties.NoNeedUpdateExactly | update.go:124-126 | ErrNoNeedUpdate is returned exactly when the current version parses, the descriptor is accepted and the current version is at least the descriptor's. When it is returned, no file changes. |
| UpdateProperties.PlanErrorTouchesNothing | update.go:114-131 | Any error found before the download is returned as is, and no file changes. |
| UpdateProperties.ProbeErrorTouchesNothing | update.go:119-122 | A failed descriptor fetch (transport error, non-200 status, unreadable or non-JSON body, wrong hash length) ends the update with that fetch's error, and no file changes. |
| UpdateProperties.ExecutableNotFoundTouchesNothing | update.go:128-131 | When an update is needed but the executable cannot be located, the update returns that error and no file changes. |
| UpdateProperties.HexErrorAfterDownload | update.go:135-143 | A 64-byte hash string that is not hex is caught only after the download: the decoder's error is returned and the downloaded bytes remain at the staging path. |
| UpdateProperties.WrongHashLengthRejected | update.go:53-55 | A descriptor whose hash string is not 64 bytes ends the update with ErrInvalidVersionInfo and changes no file. |
| UpdateProperties.AcceptedHashIsDigestSized | update.go:53-55 | The hash of an accepted descriptor either decodes to exactly 32 bytes or fails on an invalid byte. |
| UpdateProperties.OnlyTransactionPathsChange | update.go:128-163 | An update changes no file outside the executable, staging and backup paths. If the executable is not located, no file changes. |
| UpdateProperties.FailureBeforeRenameKeepsTarget | update.go:135-148 | When the download, hex decode or verification fails, the update returns that error and only the staging file may have changed. |
| UpdateProperties.BackupFailureKeepsTarget | update.go:150-153 | When the backup rename is refused or the executable is missing, that rename's error is returned and the executable is as it was. The staged build is not promoted. |
| UpdateProperties.CommitFailureRestores | update.go:155-159 | When the commit rename fails, its error is returned whatever the restore does. After a successful restore the executable holds its original bytes and the backup is gone. After a failed restore there is no executable and the backup holds the original bytes. |
| UpdateProperties.SuccessExactly | update.go:128-163 | An update succeeds exactly when the plan holds, staging and verification pass, the executable exists, and neither the backup nor the commit rename is refused. |
| UpdateProperties.SuccessInstallsDownload | update.go:132-163 | After a success the executable holds exactly the downloaded bytes and the staging file is gone. The backup remains, holding the old build, exactly when its removal was refused. |
| UpdateProperties.SwapCommitted | update.go:150-161 | A swap that succeeds moved the staged bytes onto the executable. The backup survives, holding the old build, only if its removal failed. |
| UpdateProperties.ExecutableNeverLost | update.go:150-163 | The executable exists after every update unless both the commit and the restore are refused. Its contents are the old build, or the downloaded one after a success. |
| UpdateProperties.FailClosedInstallsOnlyMatchingBuild | update.go:140-148 | With the corrected check, the executable left by a successful update has the SHA-256 digest the descriptor published. |
| UpdateProperties.VerifyIgnoresDigest | update.go:73-79 | As written, VerifySHA256Hash gives the same answer for every expected digest and every hash function. |
| UpdateProperties.AsWrittenUpdateIgnoresDigest | update.go:145-148 | As written, the outcome of a whole update does not depend on the hash function. |
| UpdateProperties.SmoothUpdate | update.go:113-164 | Suppose the version is newer, the hash string is well formed, and every download, rename and removal succeeds; with the corrected check, suppose also that the digest matches. Then the update succeeds, the executable holds the payload, and the staging and backup paths are empty. |
| UpdateProperties.MismatchRefused | update.go:145-148 | With the corrected check, a fully downloaded, readable payload whose digest differs from the published one is refused with a mismatch error, whatever the renames and the removal would answer. Only the staging file has changed, and it holds the payload. |
| UpdateProperties.SwapSucceeds | update.go:150-163 | When no rename or removal is refused, the staged build replaces the executable and both helper paths end up empty. |
| UpdateProperties.AsWrittenInstallsMismatchedBuild | update.go:75-76 | Take an update from "3" to version 5 where the published digest differs from the payload's. As written it installs the payload; with the corrected check it fails with a mismatch. |
| UpdateProperties.NewerVersionInstalled | update.go:124-163 | An update from "3" to version 5 whose descriptor carries the payload's own hex digest installs the payload. |
| UpdateProperties.OlderVersionNotInstalled | update.go:124-126 | An update from "7" against a descriptor for version 5 returns ErrNoNeedUpdate and changes no file. |

## Left out

- HTTP transport: `http.Get`, status codes and reading bodies are not modelled. Only their results are modelled, as `Http` values in `Env`, and the URLs only name which answers are used.
- JSON decoding (update.go:46-50) is not modelled. The body arrives already decoded, or as a failure to decode.
- `osext.Executable` (update.go:128) is not modelled. Its answer is `Env.executable`.
- SHA-256 is a parameter, not an implementation.
- `io.Copy` streaming (update.go:69, 99) is not modelled. A read yields the file's whole contents, and a copy yields either all of the body or the prefix written before it broke off.
- File permission bits (0755), `defer Close` and the texts of error messages are not modelled. Errors are datatype values.
- Concurrency is not modelled: several processes may update the same executable at once, and the source takes no lock.
- StrConv.TrimSpace: only the ASCII white space set is trimmed. Unicode spaces are not.
- StrConv.ParseInt: Go's syntax and range errors both become None. `Update` wraps either one into the same error.
- SelfUpdate.Update: the `Verification` mode is a parameter of the model only. The source always runs the as-written check.
- Where a careful self-updater would behave differently, the model follows the code:
  - There is no separate "unrecoverable" error. When the commit and the restore both fail, the commit's error is returned and the executable is missing (`CommitFailureRestores`, `ExecutableNeverLost`).
  - A staging file is not deleted when a step fails after the download.
  - An old backup is not cleaned up beforehand.
  - The descriptor's hash is mandatory (length 64), not optional.
  - A hash string of the right length that is not hex is detected only after the download (update.go:135-143). It is reported as the hex decoder's error, not as ErrInvalidVersionInfo, and the staging file is left behind (`HexErrorAfterDownload`).
  - A hash mismatch is not reported (see Findings).

## Findings

| source | as written | input that shows it | evidently intended | confidence | as-written member | corrected member |
|---|---|---|---|---|---|---|
| update.go:75-76 | The mismatch error is built with `fmt.Errorf` but never returned, so `VerifySHA256Hash` returns nil whenever the file reads. | A descriptor for a newer version that publishes digest 0x11…11, and a downloaded payload whose SHA-256 is anything else. | Return the mismatch error so that `Update` stops before touching the executable. | not executed | UpdateProperties.AsWrittenInstallsMismatchedBuild | UpdateProperties.FailClosedInstallsOnlyMatchingBuild |
