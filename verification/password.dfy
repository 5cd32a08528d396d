/** The PON password of an ANI: the format and length rules a new value must
    meet, forwarding a new value to the upgrade-persistent store and the
    vendor module, and restoring a saved value into the tree. */
module Password {
  import opened Wrappers
  import opened Strs
  import opened DmInfo
  import opened Tree
  import opened FileUtils
  import opened Config
  import opened PonCtrl
  import UpgradePersistency
  import opened Ani
  import opened Rth
  import opened DmChange

  /** The maximum password length (in ASCII characters) of a PON mode. */
  function MaxLen(cfg: Config, mode: PonMode): nat {
    if mode == GPon then cfg.maxGponPasswordLen else cfg.maxXponPasswordLen
  }

  predicate AllHexDigits(s: string) {
    forall i :: 0 <= i < |s| ==> IsHexDigit(s[i])
  }

  /** passwd_check_password(): the hexadecimal flag and the PON mode of the
      ANI must be readable and the mode known; a hexadecimal password has an
      even number of hex digits and exactly twice the mode's maximum length,
      an ASCII password at most the maximum length. */
  function CheckPassword(cfg: Config, tree: Tree, aniPath: string, pw: string): (r: bool)
    ensures r <==>
      && IsHexPassword(tree, aniPath).Some?
      && GetAniPonMode(tree, aniPath).Some?
      && GetAniPonMode(tree, aniPath).value != Unknown
      && (IsHexPassword(tree, aniPath).value ==>
            AllHexDigits(pw) && |pw| == 2 * MaxLen(cfg, GetAniPonMode(tree, aniPath).value))
      && (!IsHexPassword(tree, aniPath).value ==>
            |pw| <= MaxLen(cfg, GetAniPonMode(tree, aniPath).value))
  {
    match IsHexPassword(tree, aniPath)
    case None => false
    case Some(hex) =>
      if hex && |pw| % 2 != 0 then false
      else if hex && !AllHexDigits(pw) then false
      else match GetAniPonMode(tree, aniPath)
        case None => false
        case Some(mode) =>
          if mode == Unknown then false
          else if hex then |pw| == 2 * MaxLen(cfg, mode)
          else |pw| <= MaxLen(cfg, mode)
  }

  /** A hexadecimal password of odd length, or with a character that is not
      a hex digit, is rejected whatever the PON mode. */
  lemma HexPasswordFormat(cfg: Config, tree: Tree, aniPath: string, pw: string)
    requires IsHexPassword(tree, aniPath) == Some(true)
    requires |pw| % 2 != 0 || exists i :: 0 <= i < |pw| && !IsHexDigit(pw[i])
    ensures !CheckPassword(cfg, tree, aniPath, pw)
  {
  }

  /** The G-PON limit applies only in G-PON mode; every other known mode
      uses the XG-PON limit. */
  lemma AsciiLimitByMode(cfg: Config, tree: Tree, aniPath: string, pw: string)
    requires IsHexPassword(tree, aniPath) == Some(false)
    requires GetAniPonMode(tree, aniPath).Some? && GetAniPonMode(tree, aniPath).value != Unknown
    ensures GetAniPonMode(tree, aniPath).value == GPon ==>
              (CheckPassword(cfg, tree, aniPath, pw) <==> |pw| <= cfg.maxGponPasswordLen)
    ensures GetAniPonMode(tree, aniPath).value != GPon ==>
              (CheckPassword(cfg, tree, aniPath, pw) <==> |pw| <= cfg.maxXponPasswordLen)
  {
  }

  /** passwd_set_password(): a non-empty password whose hexadecimal flag
      cannot be read is dropped; otherwise it is saved in the
      upgrade-persistent store and sent to the vendor module, an empty one
      with hex = false and without reading the tree. */
  function SetPassword(cfg: Config, st: State, aniPath: string, pw: string, faults: IoFaults): (r: State)
    ensures r.tree == st.tree && r.tasks == st.tasks && r.ignoreReads == st.ignoreReads
    ensures pw != "" && IsHexPassword(st.tree, aniPath).None? ==> r == st
    ensures pw == "" || IsHexPassword(st.tree, aniPath).Some? ==>
      var hex := pw != "" && IsHexPassword(st.tree, aniPath).value;
      && r.calls == st.calls + [PonCtrl.SetPassword(aniPath, pw, hex)]
      && r.fs == UpgradePersistency.SetPassword(cfg.upgrDir, st.fs, aniPath, pw, hex, faults)
  {
    var hexRead := if pw == "" then Some(false) else IsHexPassword(st.tree, aniPath);
    match hexRead
    case None => st
    case Some(hex) =>
      st.(fs := UpgradePersistency.SetPassword(cfg.upgrDir, st.fs, aniPath, pw, hex, faults),
          calls := st.calls + [PonCtrl.SetPassword(aniPath, pw, hex)])
  }

  /** The arguments update_password_in_dm() builds for dm_change_object():
      the ANI's TC.Authentication path, Password, and HexadecimalPassword
      only when it is true. */
  function PasswordArgs(aniPath: string, pw: string, hex: bool): (r: Args)
    ensures r.path == Some(Append(aniPath)) && r.index.None? && r.keys.None?
    ensures r.parameters.Some? && r.parameters.value.Table?
    ensures var m := r.parameters.value.entries;
      && PASSWORD_PARAM in m && m[PASSWORD_PARAM] == VStr(pw)
      && (HEXADECIMAL_PASSWORD_PARAM in m <==> hex)
      && (hex ==> m[HEXADECIMAL_PASSWORD_PARAM] == VBool(true))
      && forall n :: n in m ==> n == PASSWORD_PARAM || n == HEXADECIMAL_PASSWORD_PARAM
  {
    var m := map[PASSWORD_PARAM := VStr(pw)];
    Args(Some(Append(aniPath)), None, None,
         Some(Table(if hex then m[HEXADECIMAL_PASSWORD_PARAM := VBool(true)] else m)))
  }

  /** update_password_in_dm() */
  function UpdatePasswordInDm(env: Env, st: State, aniPath: string, pw: string, hex: bool): Outcome {
    ChangeObject(env, st, PasswordArgs(aniPath, pw, hex))
  }

  /** passwd_restore_password(): when the upgrade-persistent store holds a
      password for the ANI, write it (and the hexadecimal flag when set)
      into the ANI's TC.Authentication object; a failed read or an absent
      password changes nothing. */
  function Restore(env: Env, st: State, aniPath: string): (r: State)
    requires env.cfg.Valid()
    ensures var got := UpgradePersistency.GetPassword(env.cfg.upgrDir, st.fs, env.unreadable, aniPath, env.cfg.maxPasswordLenPlusOne);
      (got.None? || got.value.None?) ==> r == st
    ensures r.fs == st.fs && r.calls == st.calls && r.ignoreReads == st.ignoreReads
    ensures r.tree.Keys == st.tree.Keys
    ensures forall k :: k in st.tree && k != Append(aniPath) ==> r.tree[k] == st.tree[k]
    ensures forall o :: Covered(st.tasks, o) ==> Covered(r.tasks, o)
  {
    match UpgradePersistency.GetPassword(env.cfg.upgrDir, st.fs, env.unreadable, aniPath, env.cfg.maxPasswordLenPlusOne)
    case None => st
    case Some(None) => st
    case Some(Some(saved)) =>
      var out := UpdatePasswordInDm(env, st, aniPath, saved.password, saved.hex);
      assert ProcessArgsCommon(PasswordArgs(aniPath, saved.password, saved.hex), CHANGE_OBJ_ARGS_REQUIRED).Some? ==>
        ChangeTarget(ProcessArgsCommon(PasswordArgs(aniPath, saved.password, saved.hex), CHANGE_OBJ_ARGS_REQUIRED).value)
        == Append(aniPath);
      out.st
  }

  /** The catalog types of the two TC.Authentication parameters. */
  lemma AuthenticationParamTypes()
    ensures LookupParam(OBJECT_INFO[ANI_TC_AUTHENTICATION].params, PASSWORD_PARAM) == Some(CString)
    ensures LookupParam(OBJECT_INFO[ANI_TC_AUTHENTICATION].params, HEXADECIMAL_PASSWORD_PARAM) == Some(Bool)
  {
    assert OBJECT_INFO[ANI_TC_AUTHENTICATION].params == AUTHENTICATION_PARAMS;
  }

  /** update_password_in_dm() on an existing TC.Authentication object that
      the host accepts: Password becomes `pw`, HexadecimalPassword becomes
      true when `hex` and is left as it was otherwise. */
  lemma UpdatePasswordWrites(env: Env, st: State, aniPath: string, pw: string, hex: bool)
    requires GetObjectId(Append(aniPath)) == ANI_TC_AUTHENTICATION
    requires Append(aniPath) in st.tree && Append(aniPath) !in env.host.rejects
    ensures var r := UpdatePasswordInDm(env, st, aniPath, pw, hex).st;
            var before := st.tree[Append(aniPath)].params;
            && Append(aniPath) in r.tree
            && var after := r.tree[Append(aniPath)].params;
            && PASSWORD_PARAM in after && after[PASSWORD_PARAM] == VStr(pw)
            && (hex ==> HEXADECIMAL_PASSWORD_PARAM in after && after[HEXADECIMAL_PASSWORD_PARAM] == VBool(true))
            && (!hex ==> (HEXADECIMAL_PASSWORD_PARAM in after <==> HEXADECIMAL_PASSWORD_PARAM in before))
            && (!hex && HEXADECIMAL_PASSWORD_PARAM in before ==>
                  after[HEXADECIMAL_PASSWORD_PARAM] == before[HEXADECIMAL_PASSWORD_PARAM])
  {
    var args := PasswordArgs(aniPath, pw, hex);
    var info := ProcessArgsCommon(args, CHANGE_OBJ_ARGS_REQUIRED);
    assert Has(args, CHANGE_OBJ_ARGS_REQUIRED[0]) && Has(args, CHANGE_OBJ_ARGS_REQUIRED[1]);
    assert info.Some?;
    assert ChangeTarget(info.value) == Append(aniPath);
    AuthenticationParamTypes();
    var given := info.value.params.GetOr(map[]);
    assert Accepted(info.value.objId, given, PASSWORD_PARAM);
    ChangeSetsAcceptedParams(env, st, args, PASSWORD_PARAM);
    if hex {
      assert Accepted(info.value.objId, given, HEXADECIMAL_PASSWORD_PARAM);
    } else {
      assert !Accepted(info.value.objId, given, HEXADECIMAL_PASSWORD_PARAM);
    }
    ChangeSetsAcceptedParams(env, st, args, HEXADECIMAL_PASSWORD_PARAM);
  }

  /** When a password is saved for the ANI, Restore writes it into the
      existing TC.Authentication object: Password becomes the saved value
      and HexadecimalPassword becomes true for a hexadecimal one, while an
      ASCII one leaves HexadecimalPassword as it was. */
  lemma RestoreWritesSaved(env: Env, st: State, aniPath: string, saved: UpgradePersistency.Saved)
    requires env.cfg.Valid()
    requires UpgradePersistency.GetPassword(env.cfg.upgrDir, st.fs, env.unreadable, aniPath, env.cfg.maxPasswordLenPlusOne) == Some(Some(saved))
    requires GetObjectId(Append(aniPath)) == ANI_TC_AUTHENTICATION
    requires Append(aniPath) in st.tree && Append(aniPath) !in env.host.rejects
    ensures var after := Restore(env, st, aniPath).tree[Append(aniPath)].params;
            var before := st.tree[Append(aniPath)].params;
            && PASSWORD_PARAM in after && after[PASSWORD_PARAM] == VStr(saved.password)
            && (saved.hex ==> HEXADECIMAL_PASSWORD_PARAM in after && after[HEXADECIMAL_PASSWORD_PARAM] == VBool(true))
            && (!saved.hex ==> (HEXADECIMAL_PASSWORD_PARAM in after <==> HEXADECIMAL_PASSWORD_PARAM in before))
            && (!saved.hex && HEXADECIMAL_PASSWORD_PARAM in before ==>
                  after[HEXADECIMAL_PASSWORD_PARAM] == before[HEXADECIMAL_PASSWORD_PARAM])
  {
    assert Restore(env, st, aniPath) == UpdatePasswordInDm(env, st, aniPath, saved.password, saved.hex).st;
    UpdatePasswordWrites(env, st, aniPath, saved.password, saved.hex);
  }

  /** Saving a password and restoring it later puts it back into the tree:
      after a successful write, Restore sets Password to the saved value,
      and HexadecimalPassword to true when the password was hexadecimal
      (an ASCII password leaves it as it was). */
  lemma SetThenRestore(env: Env, st: State, aniPath: string, pw: string, faults: IoFaults)
    requires env.cfg.Valid() && env.cfg.upgrDir.Some?
    requires pw != "" && '\n' !in pw && |pw| < env.cfg.maxPasswordLenPlusOne && |pw| < LINE_LEN - 1
    requires IsHexPassword(st.tree, aniPath).Some?
    requires WriteFile(st.fs, UpgradePersistency.PasswordFilePath(env.cfg.upgrDir, aniPath, IsHexPassword(st.tree, aniPath).value), pw, faults).ok
    requires GetObjectId(Append(aniPath)) == ANI_TC_AUTHENTICATION
    requires Append(aniPath) !in env.host.rejects
    requires UpgradePersistency.PasswordFilePath(env.cfg.upgrDir, aniPath, IsHexPassword(st.tree, aniPath).value) !in env.unreadable
    requires IsHexPassword(st.tree, aniPath).value ==> UpgradePersistency.PasswordFilePath(env.cfg.upgrDir, aniPath, false) !in faults.undeletable
    ensures var st2 := Restore(env, SetPassword(env.cfg, st, aniPath, pw, faults), aniPath);
            var hex := IsHexPassword(st.tree, aniPath).value;
            && PASSWORD_PARAM in st2.tree[Append(aniPath)].params
            && st2.tree[Append(aniPath)].params[PASSWORD_PARAM] == VStr(pw)
            && HEXADECIMAL_PASSWORD_PARAM in st2.tree[Append(aniPath)].params
            && (hex ==> st2.tree[Append(aniPath)].params[HEXADECIMAL_PASSWORD_PARAM] == VBool(true))
            && (!hex ==> st2.tree[Append(aniPath)].params[HEXADECIMAL_PASSWORD_PARAM]
                         == st.tree[Append(aniPath)].params[HEXADECIMAL_PASSWORD_PARAM])
  {
    var hex := IsHexPassword(st.tree, aniPath).value;
    var st1 := SetPassword(env.cfg, st, aniPath, pw, faults);
    UpgradePersistency.SetThenGet(env.cfg.upgrDir, st.fs, env.unreadable, aniPath, pw, hex, faults, env.cfg.maxPasswordLenPlusOne);
    assert st1.tree == st.tree;
    assert UpgradePersistency.GetPassword(env.cfg.upgrDir, st1.fs, env.unreadable, aniPath, env.cfg.maxPasswordLenPlusOne)
           == Some(Some(UpgradePersistency.Saved(pw, hex)));
    RestoreWritesSaved(env, st1, aniPath, UpgradePersistency.Saved(pw, hex));
  }
}
