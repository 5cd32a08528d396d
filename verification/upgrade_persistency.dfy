/** Upgrade-persistent ANI passwords: one file per ANI holding the
    password, named after the ANI path and the format (ASCII or hex). At most
    one of the two files is kept. */
module UpgradePersistency {
  import opened Wrappers
  import opened Strs
  import opened FileUtils

  const ASCII_SUFFIX: string := "_password_ascii.txt"
  const HEX_SUFFIX: string := "_password_hex.txt"

  /** create_password_file_path(). With no storage directory the prefix is
      empty, so the name is relative. */
  function PasswordFilePath(dir: Option<string>, ani: string, hex: bool): string {
    dir.GetOr("") + ani + (if hex then HEX_SUFFIX else ASCII_SUFFIX)
  }

  lemma PasswordFilePathsDiffer(dir: Option<string>, ani: string)
    ensures PasswordFilePath(dir, ani, false) != PasswordFilePath(dir, ani, true)
  {
    assert |PasswordFilePath(dir, ani, false)| != |PasswordFilePath(dir, ani, true)|;
  }

  /** upgr_persistency_set_password(): an empty password removes both files;
      otherwise the file of the requested kind is written and the other kind
      is removed whatever the write did. The results of the unlink() calls
      are ignored: a file in `faults.undeletable` stays. */
  function SetPassword(dir: Option<string>, fs: FileSystem, ani: string, pw: string, hex: bool, faults: IoFaults): (r: FileSystem)
    ensures dir.None? ==> r == fs
    ensures dir.Some? && pw == "" ==>
      && (PasswordFilePath(dir, ani, false) in r <==> PasswordFilePath(dir, ani, false) in fs.Keys * faults.undeletable)
      && (PasswordFilePath(dir, ani, true) in r <==> PasswordFilePath(dir, ani, true) in fs.Keys * faults.undeletable)
    ensures dir.Some? && pw != "" && PasswordFilePath(dir, ani, !hex) !in faults.undeletable ==>
      PasswordFilePath(dir, ani, !hex) !in r
    ensures dir.Some? && pw != "" && WriteFile(fs, PasswordFilePath(dir, ani, hex), pw, faults).ok ==>
      PasswordFilePath(dir, ani, hex) in r && StartsWith(r[PasswordFilePath(dir, ani, hex)], pw)
  {
    if dir.None? then fs
    else
      var ascii := PasswordFilePath(dir, ani, false);
      var hexFile := PasswordFilePath(dir, ani, true);
      if pw == "" then fs - ({ascii, hexFile} - faults.undeletable)
      else
        PasswordFilePathsDiffer(dir, ani);
        WriteFile(fs, PasswordFilePath(dir, ani, hex), pw, faults).fs - ({PasswordFilePath(dir, ani, !hex)} - faults.undeletable)
  }

  /** A saved password and whether it is in hexadecimal format. */
  datatype Saved = Saved(password: string, hex: bool)

  /** upgr_persistency_get_password() with a buffer of `cap` bytes
      (MAX_PASSWORD_LEN_PLUS_ONE): None on failure, Some(None) when no
      password is saved, else the first line of the ASCII file or, when
      there is none, of the hex file. Reading the consulted file fails when
      it is empty or in `unreadable`. */
  function GetPassword(dir: Option<string>, fs: FileSystem, unreadable: set<string>, ani: string, cap: nat): (r: Option<Option<Saved>>)
    requires cap >= 2
    ensures r == Some(None) <==> PasswordFilePath(dir, ani, false) !in fs && PasswordFilePath(dir, ani, true) !in fs
    ensures r.None? <==>
      || (PasswordFilePath(dir, ani, false) in fs
          && (fs[PasswordFilePath(dir, ani, false)] == "" || PasswordFilePath(dir, ani, false) in unreadable))
      || (PasswordFilePath(dir, ani, false) !in fs && PasswordFilePath(dir, ani, true) in fs
          && (fs[PasswordFilePath(dir, ani, true)] == "" || PasswordFilePath(dir, ani, true) in unreadable))
    ensures r.Some? && r.value.Some? ==>
      var s := r.value.value;
      && (s.hex <==> PasswordFilePath(dir, ani, false) !in fs)
      && s.password != "" && |s.password| < cap
      && StartsWith(fs[PasswordFilePath(dir, ani, s.hex)], s.password)
  {
    var ascii := PasswordFilePath(dir, ani, false);
    var hexFile := PasswordFilePath(dir, ani, true);
    var file := if ascii in fs then ascii else hexFile;
    if file !in fs then Some(None)
    else match ReadFirstLine(fs, unreadable, file, cap)
      case None => None
      case Some(line) => Some(Some(Saved(line, file != ascii)))
  }

  /** Saving a non-empty one-line password that is written successfully and
      reading it back returns the password and its format. */
  lemma SetThenGet(dir: Option<string>, fs: FileSystem, unreadable: set<string>, ani: string, pw: string, hex: bool, faults: IoFaults, cap: nat)
    requires dir.Some? && cap >= 2
    requires pw != "" && '\n' !in pw && |pw| < cap && |pw| < LINE_LEN - 1
    requires WriteFile(fs, PasswordFilePath(dir, ani, hex), pw, faults).ok
    requires PasswordFilePath(dir, ani, hex) !in unreadable
    requires hex ==> PasswordFilePath(dir, ani, false) !in faults.undeletable
    ensures GetPassword(dir, SetPassword(dir, fs, ani, pw, hex, faults), unreadable, ani, cap) == Some(Some(Saved(pw, hex)))
  {
    var file := PasswordFilePath(dir, ani, hex);
    var fs' := SetPassword(dir, fs, ani, pw, hex, faults);
    PasswordFilePathsDiffer(dir, ani);
    WriteThenRead(fs, unreadable, file, pw, faults, cap);
    assert fs'[file] == WriteFile(fs, file, pw, faults).fs[file];
  }

  /** A failed unlink of an old ASCII file hides a new hexadecimal
      password: the ASCII file is consulted first, so the old password is
      read back, in ASCII format. */
  lemma StaleAsciiWins(dir: Option<string>, fs: FileSystem, unreadable: set<string>, ani: string, pw: string, faults: IoFaults, cap: nat)
    requires dir.Some? && cap >= 2 && pw != ""
    requires PasswordFilePath(dir, ani, false) in fs && fs[PasswordFilePath(dir, ani, false)] != ""
    requires PasswordFilePath(dir, ani, false) in faults.undeletable
    requires PasswordFilePath(dir, ani, false) !in unreadable
    requires TmpName(PasswordFilePath(dir, ani, true)) != PasswordFilePath(dir, ani, false)
    ensures GetPassword(dir, SetPassword(dir, fs, ani, pw, true, faults), unreadable, ani, cap)
            == Some(Some(Saved(FirstLine(fs[PasswordFilePath(dir, ani, false)], cap), false)))
  {
    var ascii := PasswordFilePath(dir, ani, false);
    PasswordFilePathsDiffer(dir, ani);
    var w := WriteFile(fs, PasswordFilePath(dir, ani, true), pw, faults).fs;
    assert ascii in w && w[ascii] == fs[ascii];
  }

  /** Clearing the password and reading it back finds no password. */
  lemma ClearThenGet(dir: Option<string>, fs: FileSystem, unreadable: set<string>, ani: string, hex: bool, faults: IoFaults, cap: nat)
    requires dir.Some? && cap >= 2
    requires PasswordFilePath(dir, ani, false) !in faults.undeletable
    requires PasswordFilePath(dir, ani, true) !in faults.undeletable
    ensures GetPassword(dir, SetPassword(dir, fs, ani, "", hex, faults), unreadable, ani, cap) == Some(None)
  {
  }
}
