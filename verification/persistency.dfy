/** Reboot-persistent Enable flags: object `p` counts as enabled iff the
    marker file dir + p + "_enabled.txt" exists. Without a storage
    directory nothing is stored and nothing is enabled. */
module Persistency {
  import opened Wrappers
  import opened Strs
  import opened FileUtils

  const ENABLED_SUFFIX: string := "_enabled.txt"

  /** create_enabled_file_path() */
  function EnabledFilePath(dir: string, obj: string): string {
    dir + obj + ENABLED_SUFFIX
  }

  /** Different objects have different marker files. */
  lemma EnabledFilePathInjective(dir: string, a: string, b: string)
    requires EnabledFilePath(dir, a) == EnabledFilePath(dir, b)
    ensures a == b
  {
    var m := EnabledFilePath(dir, a);
    assert |a| == |b|;
    assert m[|dir|..|dir| + |a|] == a;
    assert EnabledFilePath(dir, b)[|dir|..|dir| + |b|] == b;
  }

  /** touch_file(): creates an empty file unless one exists already; the
      fopen() may fail, and then nothing changes. */
  function TouchFile(fs: FileSystem, file: string, createFails: bool): (r: FileSystem)
    ensures file in fs ==> r == fs
    ensures file in r <==> file in fs || !createFails
    ensures SameExcept(fs, r, {file})
  {
    if file in fs || createFails then fs else fs[file := ""]
  }

  /** persistency_enable(): touch the marker to enable, unlink it to
      disable. `fails` is the outcome of the one file call that runs (the
      fopen() of the touch, or the unlink(), whose result is ignored). */
  function Enable(dir: Option<string>, fs: FileSystem, obj: string, enable: bool, fails: bool): (r: FileSystem)
    ensures dir.None? ==> r == fs
    ensures dir.Some? ==> SameExcept(fs, r, {EnabledFilePath(dir.value, obj)})
    ensures dir.Some? && enable && EnabledFilePath(dir.value, obj) in fs ==> r == fs
    ensures fails ==> r == fs
  {
    match dir
    case None => fs
    case Some(d) =>
      var file := EnabledFilePath(d, obj);
      if enable then TouchFile(fs, file, fails)
      else if fails then fs
      else fs - {file}
  }

  /** persistency_is_enabled() */
  function IsEnabled(dir: Option<string>, fs: FileSystem, obj: string): (r: bool)
    ensures dir.None? ==> !r
  {
    dir.Some? && EnabledFilePath(dir.value, obj) in fs
  }

  /** Storing a flag and querying it gives the flag back (when the marker
      could be created or removed), and no flag at all without a storage
      directory. */
  lemma EnableThenIsEnabled(dir: Option<string>, fs: FileSystem, obj: string, enable: bool)
    ensures IsEnabled(dir, Enable(dir, fs, obj, enable, false), obj) == (dir.Some? && enable)
  {
  }

  /** A failed create or unlink leaves the previous flag in place: a
      disable whose unlink fails leaves the object enabled. */
  lemma EnableFileFailure(dir: Option<string>, fs: FileSystem, obj: string, enable: bool)
    ensures IsEnabled(dir, Enable(dir, fs, obj, enable, true), obj) == IsEnabled(dir, fs, obj)
  {
  }

  /** Storing a flag for one object leaves every other object's flag alone. */
  lemma EnableKeepsOthers(dir: Option<string>, fs: FileSystem, obj: string, other: string, enable: bool, fails: bool)
    requires other != obj
    ensures IsEnabled(dir, Enable(dir, fs, obj, enable, fails), other) == IsEnabled(dir, fs, other)
  {
    if dir.Some? {
      var f := EnabledFilePath(dir.value, other);
      if f == EnabledFilePath(dir.value, obj) {
        EnabledFilePathInjective(dir.value, other, obj);
      }
    }
  }
}
