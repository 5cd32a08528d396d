/** Handlers of the events the host raises after a change of the data
    model: an Enable change of an ONU or ANI, and a Password change of an
    ANI's TC.Authentication object. The event data is given as optional
    fields (None when the key is missing or not a string). */
module DmEvents {
  import opened Wrappers
  import opened Strs
  import opened Tree
  import opened Config
  import opened FileUtils
  import opened PonCtrl
  import opened Rth
  import opened Persistency
  import opened Ani
  import opened DmChange
  import Password

  /** The event path without its trailing dots (amxc_string_trimr with
      isdot). */
  function NoDot(path: string): (r: string)
    ensures StartsWith(path, r)
    ensures |r| == 0 || r[|r| - 1] != '.'
    ensures forall i :: |r| <= i < |path| ==> path[i] == '.'
  {
    TrimRight(path, '.')
  }

  /** A path that does not end in a dot loses exactly the dots added to it. */
  lemma {:induction false} NoDotAppended(p: string, n: nat)
    requires |p| == 0 || p[|p| - 1] != '.'
    ensures NoDot(p + seq(n, _ => '.')) == p
    decreases n
  {
    if n > 0 {
      var s := p + seq(n, _ => '.');
      assert s[..|s| - 1] == p + seq(n - 1, _ => '.');
      NoDotAppended(p, n - 1);
    }
  }

  // ---------------------------------------------------------------------
  // onu_or_ani_enable_changed()
  // ---------------------------------------------------------------------

  /** onu_or_ani_enable_changed(): enabling an ONU schedules a deferred
      enable; any other change goes to the vendor module at once. The flag
      is persisted every time, and disabling drops a pending deferred
      enable of exactly that path. `fileFails` is the outcome of creating
      or removing the reboot-persistent marker. */
  function EnableChanged(cfg: Config, st: State, path: Option<string>, enable: bool, onu: bool, fileFails: bool): (r: State)
    ensures path.None? ==> r == st
    ensures r.tree == st.tree && r.ignoreReads == st.ignoreReads
    ensures path.Some? ==>
      var p := NoDot(path.value);
      && (enable && onu ==> r.calls == st.calls && Covered(r.tasks, p) && r.tasks == Schedule(st.tasks, p).tasks)
      && (!(enable && onu) ==> r.calls == st.calls + [SetEnable(p, enable)])
      && (enable && !onu ==> r.tasks == st.tasks)
      && (!enable ==> r.tasks == Disable(st.tasks, p))
      && (cfg.rebootDir.Some? && !fileFails ==> (IsEnabled(cfg.rebootDir, r.fs, p) <==> enable))
      && (fileFails ==> IsEnabled(cfg.rebootDir, r.fs, p) == IsEnabled(cfg.rebootDir, st.fs, p))
      && (forall o :: o != p ==> IsEnabled(cfg.rebootDir, r.fs, o) == IsEnabled(cfg.rebootDir, st.fs, o))
  {
    match path
    case None => st
    case Some(raw) =>
      var p := NoDot(raw);
      var scheduled := if enable && onu then Schedule(st.tasks, p).tasks else st.tasks;
      var calls := if enable && onu then st.calls else st.calls + [SetEnable(p, enable)];
      var fs := Persistency.Enable(cfg.rebootDir, st.fs, p, enable, fileFails);
      EnableThenIsEnabled(cfg.rebootDir, st.fs, p, enable);
      EnableFileFailure(cfg.rebootDir, st.fs, p, enable);
      forall o | o != p ensures IsEnabled(cfg.rebootDir, fs, o) == IsEnabled(cfg.rebootDir, st.fs, o) {
        EnableKeepsOthers(cfg.rebootDir, st.fs, p, o, enable, fileFails);
      }
      ScheduleIdempotent(st.tasks, p);
      st.(tasks := if enable then scheduled else Disable(scheduled, p), calls := calls, fs := fs)
  }

  /** Switching an ONU on and straight off again leaves the deferred
      enables as they were (when the ONU was not already covered) and sends
      the vendor module exactly one request: disable. The ONU is no longer
      persistently enabled unless the unlink of its marker fails; then a
      marker created by the first event stays. */
  lemma OnuOnThenOff(cfg: Config, st: State, path: string, f1: bool, f2: bool)
    requires !Covered(st.tasks, NoDot(path))
    ensures var s1 := EnableChanged(cfg, st, Some(path), true, true, f1);
            var s2 := EnableChanged(cfg, s1, Some(path), false, true, f2);
            && s2.tasks == st.tasks
            && s2.calls == st.calls + [SetEnable(NoDot(path), false)]
            && (!f2 ==> !IsEnabled(cfg.rebootDir, s2.fs, NoDot(path)))
            && (cfg.rebootDir.Some? && !f1 && f2 ==> IsEnabled(cfg.rebootDir, s2.fs, NoDot(path)))
  {
    DisableUndoesSchedule(st.tasks, NoDot(path));
    var s1 := EnableChanged(cfg, st, Some(path), true, true, f1);
    EnableThenIsEnabled(cfg.rebootDir, s1.fs, NoDot(path), false);
    EnableThenIsEnabled(cfg.rebootDir, st.fs, NoDot(path), true);
  }

  // ---------------------------------------------------------------------
  // _password_changed()
  // ---------------------------------------------------------------------

  /** _password_changed(): trim the dots, strip ".TC.Authentication" and
      hand the ANI path and the new password to the password part; nothing
      happens when the path or password is missing or the strip fails.
      `faults` are the outcomes of the file operations. */
  function PasswordChanged(cfg: Config, st: State, path: Option<string>, pw: Option<string>, faults: IoFaults): (r: State)
    ensures path.None? || pw.None? ==> r == st
    ensures path.Some? && !Strip(NoDot(path.value)).ok ==> r == st
    ensures r.tree == st.tree && r.tasks == st.tasks && r.ignoreReads == st.ignoreReads
    ensures path.Some? && pw.Some? && Strip(NoDot(path.value)).ok ==>
      var ani := Strip(NoDot(path.value)).path;
      && (pw.value == "" || IsHexPassword(st.tree, ani).Some? ==>
            && |r.calls| == |st.calls| + 1
            && r.calls[..|st.calls|] == st.calls
            && r.calls[|st.calls|].SetPassword? && r.calls[|st.calls|].aniPath == ani
            && r.calls[|st.calls|].password == pw.value)
      && (pw.value != "" && IsHexPassword(st.tree, ani).None? ==> r == st)
  {
    if path.None? || pw.None? then st
    else
      var s := Strip(NoDot(path.value));
      if !s.ok then st
      else
        var r := Password.SetPassword(cfg, st, s.path, pw.value, faults);
        assert r.calls[..|st.calls|] == st.calls;
        r
  }

  /** The event for the TC.Authentication object of an ANI, with its
      trailing dot, forwards the password for that ANI. */
  lemma PasswordChangedForwardsAni(cfg: Config, st: State, ani: string, pw: string, faults: IoFaults)
    requires !Contains(ani, DOT_TC_AUTHENTICATION)
    requires pw == "" || IsHexPassword(st.tree, ani).Some?
    ensures var r := PasswordChanged(cfg, st, Some(Append(ani) + "."), Some(pw), faults);
            var hex := pw != "" && IsHexPassword(st.tree, ani).value;
            r.calls == st.calls + [PonCtrl.SetPassword(ani, pw, hex)]
  {
    var a := Append(ani);
    assert a[|a| - 1] == 'n';
    assert a + "." == a + seq(1, _ => '.');
    NoDotAppended(a, 1);
    StripAppend(ani);
  }
}
