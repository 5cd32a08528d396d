/** Small file helpers over an abstract file system: reading the first line
    of a file, and writing a one-line value through a temporary file that is
    then renamed over the target. */
module FileUtils {
  import opened Wrappers
  import opened Strs

  /** Path to contents; a path that is not a key does not exist. */
  type FileSystem = map<string, string>

  /** Size of the line buffers (and of the temporary-name buffer). */
  const LINE_LEN: nat := 256

  /** The I/O calls of one write that can fail: the read of the target's
      first line (`unreadable` holds the files whose fopen or fgets fails),
      fopen of the temporary file, fputs, rename, the open after the
      rename, and fdatasync; `undeletable` holds the files whose unlink()
      fails when a caller removes them. */
  datatype IoFaults = IoFaults(
    unreadable: set<string>,
    undeletable: set<string>,
    openTmpFails: bool,
    writeFails: bool,
    renameFails: bool,
    reopenFails: bool,
    syncFails: bool)

  const NO_FAULTS: IoFaults := IoFaults({}, {}, false, false, false, false, false)

  /** Outcome of a file operation: the C return value and the file system after it. */
  datatype FsResult = FsResult(ok: bool, fs: FileSystem)

  /** `a` and `b` agree on every path outside `touched`. */
  ghost predicate SameExcept(a: FileSystem, b: FileSystem, touched: set<string>) {
    forall f :: f !in touched ==> (f in a <==> f in b) && (f in a ==> a[f] == b[f])
  }

  /** What fgets() stores in a buffer of `cap` bytes: at most cap - 1
      characters, stopping after the first newline. */
  function FirstLine(content: string, cap: nat): (r: string)
    requires cap >= 1
    ensures StartsWith(content, r) && |r| <= cap - 1
    ensures forall i :: 0 <= i < |r| - 1 ==> r[i] != '\n'
    ensures |r| == cap - 1 || |r| == |content| || (|r| > 0 && r[|r| - 1] == '\n')
  {
    if '\n' in content then
      var n := IndexOf(content, '\n');
      var r := Truncate(content[..n + 1], cap - 1);
      assert forall i :: 0 <= i < |r| - 1 ==> r[i] == content[i];
      r
    else Truncate(content, cap - 1)
  }

  /** A short line without a newline is read back whole. */
  lemma FirstLineOfLine(s: string, cap: nat)
    requires cap >= 1 && |s| < cap && '\n' !in s
    ensures FirstLine(s, cap) == s
  {
  }

  /** read_first_line_from_file() with a buffer of `cap` bytes (every caller
      passes at least two): fails when the file does not exist, cannot be
      opened or read (it is in `unreadable`), or is empty. */
  function ReadFirstLine(fs: FileSystem, unreadable: set<string>, path: string, cap: nat): (r: Option<string>)
    requires cap >= 2
    ensures r.None? <==> path !in fs || path in unreadable || fs[path] == ""
    ensures r.Some? ==> |r.value| > 0 && StartsWith(fs[path], r.value) && |r.value| < cap
    ensures r.Some? ==> r.value == FirstLine(fs[path], cap)
  {
    if path !in fs || path in unreadable || fs[path] == "" then None
    else Some(FirstLine(fs[path], cap))
  }

  /** check_file_has_value(): None when the first line cannot be read, else
      whether it equals `value` (same length and same characters). */
  function CheckFileHasValue(fs: FileSystem, unreadable: set<string>, path: string, value: string): (r: Option<bool>)
    ensures r.None? <==> path !in fs || path in unreadable || fs[path] == ""
    ensures r == Some(true) ==> StartsWith(fs[path], value) && FirstLine(fs[path], LINE_LEN) == value
  {
    match ReadFirstLine(fs, unreadable, path, LINE_LEN)
    case None => None
    case Some(line) => Some(line == value)
  }

  /** A file holding exactly a short newline-free value is recognised. */
  lemma CheckFileHasOwnValue(fs: FileSystem, unreadable: set<string>, path: string)
    requires path in fs && path !in unreadable && fs[path] != ""
    requires |fs[path]| < LINE_LEN && '\n' !in fs[path]
    ensures CheckFileHasValue(fs, unreadable, path, fs[path]) == Some(true)
  {
    FirstLineOfLine(fs[path], LINE_LEN);
  }

  /** rename_file(): moves `src` over `dst`, then reopens `dst` to sync it.
      A failed sync is only logged. */
  function RenameFile(fs: FileSystem, src: string, dst: string, faults: IoFaults): (r: FsResult)
    ensures r.ok <==> src in fs && !faults.renameFails && !faults.reopenFails
    ensures r.fs != fs ==> src in fs && !faults.renameFails
    ensures src in fs && !faults.renameFails ==>
      && dst in r.fs && r.fs[dst] == fs[src]
      && (src != dst ==> src !in r.fs)
    ensures SameExcept(fs, r.fs, {src, dst})
  {
    if src !in fs || faults.renameFails then FsResult(false, fs)
    else
      var moved := (fs - {src})[dst := fs[src]];
      if faults.reopenFails then FsResult(false, moved)
      else FsResult(true, moved)
  }

  /** The temporary file name: snprintf(tmp, 256, "%s.tmp", path). */
  function TmpName(path: string): (r: string)
    ensures |r| <= LINE_LEN - 1
    ensures |path| + 4 <= LINE_LEN - 1 ==> r == path + ".tmp"
  {
    Truncate(path + ".tmp", LINE_LEN - 1)
  }

  /** write_file(): writes `value` to `path` through TmpName(path), unless
      `path` already holds it as its first line. */
  function WriteFile(fs: FileSystem, path: string, value: string, faults: IoFaults): (r: FsResult)
    ensures |value| >= LINE_LEN ==> r == FsResult(false, fs)
    ensures r.ok ==> path in r.fs && StartsWith(r.fs[path], value)
    ensures r.ok ==> r.fs[path] == value || (r.fs == fs && FirstLine(fs[path], LINE_LEN) == value)
    ensures SameExcept(fs, r.fs, {path, TmpName(path)})
    ensures r.ok && r.fs != fs ==>
      && r.fs[path] == value
      && (TmpName(path) != path ==> TmpName(path) !in r.fs)
  {
    if |value| >= LINE_LEN then FsResult(false, fs)
    else if path in fs && CheckFileHasValue(fs, faults.unreadable, path, value) == Some(true) then FsResult(true, fs)
    else
      var tmp := TmpName(path);
      if faults.openTmpFails then FsResult(false, fs)
      else if faults.writeFails then FsResult(false, fs[tmp := ""])
      else RenameFile(fs[tmp := value], tmp, path, faults)
  }

  /** A write whose temporary stage fails reports failure and leaves the
      target as it was. */
  lemma WriteFileTmpFailureKeepsTarget(fs: FileSystem, path: string, value: string, faults: IoFaults)
    requires faults.openTmpFails || faults.writeFails
    requires TmpName(path) != path
    requires CheckFileHasValue(fs, faults.unreadable, path, value) != Some(true)
    ensures !WriteFile(fs, path, value, faults).ok
    ensures var fs' := WriteFile(fs, path, value, faults).fs;
            (path in fs' <==> path in fs) && (path in fs ==> fs'[path] == fs[path])
  {
  }

  /** A write without faults that was needed leaves exactly `value` in the
      target and removes the temporary file. */
  lemma WriteFileSucceeds(fs: FileSystem, path: string, value: string)
    requires |value| < LINE_LEN && TmpName(path) != path
    ensures var r := WriteFile(fs, path, value, NO_FAULTS);
            && r.ok && path in r.fs
            && (r.fs[path] == value || r.fs == fs)
            && (r.fs != fs ==> TmpName(path) !in r.fs)
  {
  }

  /** A false result does not mean the target is unchanged: when only the
      reopen after the rename fails, the new value is already in place. */
  lemma WriteFileFailsAfterRename(fs: FileSystem, path: string, value: string)
    requires |value| < LINE_LEN && TmpName(path) != path
    requires CheckFileHasValue(fs, {}, path, value) != Some(true)
    ensures var r := WriteFile(fs, path, value, NO_FAULTS.(reopenFails := true));
            !r.ok && path in r.fs && r.fs[path] == value
  {
  }

  /** A failed sync does not change the outcome of a write. */
  lemma WriteFileIgnoresSync(fs: FileSystem, path: string, value: string, faults: IoFaults)
    ensures WriteFile(fs, path, value, faults.(syncFails := true)) == WriteFile(fs, path, value, faults.(syncFails := false))
  {
  }

  /** Writing a short newline-free value and reading the first line back
      gives the value. */
  lemma WriteThenRead(fs: FileSystem, unreadable: set<string>, path: string, value: string, faults: IoFaults, cap: nat)
    requires value != "" && '\n' !in value && |value| < cap && cap >= 2
    requires |value| < LINE_LEN - 1 && path !in unreadable
    requires WriteFile(fs, path, value, faults).ok
    ensures ReadFirstLine(WriteFile(fs, path, value, faults).fs, unreadable, path, cap) == Some(value)
  {
    FirstLineOfLine(value, cap);
  }
}
