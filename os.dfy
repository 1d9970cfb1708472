/** The part of Go's `os` package that the update touches, over an abstract
    file system: a map from path to file contents. Each operation is a pure
    function giving the new contents (the specification) and a method of
    class FileSystem that performs it in place. Whether the operating system
    refuses an operation that could succeed is an input (`fault`). */
module Os {
  import opened Common

  type Path = string
  type Files = map<Path, Bytes>

  /** `*os.LinkError` from a rename, `*os.PathError` from the other calls. */
  datatype OsError = LinkError(oldPath: Path, newPath: Path) | PathError(op: string, path: Path)

  /** The outcome of one call and the files after it. */
  datatype Step = Step(result: Outcome<OsError>, files: Files)

  /** `os.Rename(src, dst)`: succeeds exactly when `src` exists and the system
      does not refuse; then `dst` holds what `src` held (replacing any old
      `dst`) and `src` is gone. A failed rename changes nothing. */
  function Renamed(fs: Files, src: Path, dst: Path, fault: bool): (r: Step)
    ensures r.result.Pass? <==> !fault && src in fs
    ensures r.result.Fail? ==> r.result == Fail(LinkError(src, dst)) && r.files == fs
    ensures r.result.Pass? ==> dst in r.files && r.files[dst] == fs[src]
    ensures r.result.Pass? && src != dst ==> src !in r.files
    ensures r.files - {src, dst} == fs - {src, dst}
  {
    if fault || src !in fs then Step(Fail(LinkError(src, dst)), fs)
    else Step(Pass, (fs - {src})[dst := fs[src]])
  }

  /** `os.Remove(p)`: succeeds exactly when `p` exists and the system does not
      refuse; then `p` is gone and nothing else changes. */
  function Removed(fs: Files, p: Path, fault: bool): (r: Step)
    ensures r.result.Pass? <==> !fault && p in fs
    ensures r.result.Fail? ==> r.result == Fail(PathError("remove", p)) && r.files == fs
    ensures p !in fs ==> r.files == fs
    ensures r.result.Pass? ==> p !in r.files
    ensures r.files - {p} == fs - {p}
  {
    if fault || p !in fs then Step(Fail(PathError("remove", p)), fs)
    else Step(Pass, fs - {p})
  }

  /** The file system as the running process sees it. */
  class FileSystem {
    var files: Files

    constructor (initial: Files)
      ensures files == initial
    {
      files := initial;
    }

    method Rename(src: Path, dst: Path, fault: bool) returns (err: Outcome<OsError>)
      modifies this
      ensures Step(err, files) == Renamed(old(files), src, dst, fault)
    {
      if fault || src !in files {
        return Fail(LinkError(src, dst));
      }
      files := (files - {src})[dst := files[src]];
      return Pass;
    }

    method Remove(p: Path, fault: bool) returns (err: Outcome<OsError>)
      modifies this
      ensures Step(err, files) == Removed(old(files), p, fault)
    {
      if fault || p !in files {
        return Fail(PathError("remove", p));
      }
      files := files - {p};
      return Pass;
    }

    /** Creates or truncates `p` and leaves `data` in it, as
        `os.OpenFile(p, O_CREATE|O_WRONLY|O_TRUNC, ...)` followed by writes. */
    method WriteFile(p: Path, data: Bytes)
      modifies this
      ensures files == old(files)[p := data]
    {
      files := files[p := data];
    }
  }
}
