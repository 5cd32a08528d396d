/** The plugin's view of the host object tree and the common part of its
    transactions: the state an operation works on, the argument table a
    vendor module passes in, argument processing, the parameters a
    transaction sets, the persisted-Enable check, changing an existing
    object, and the two ANI reads the password rules need. */
module DmChange {
  import opened Wrappers
  import opened Strs
  import opened DmInfo
  import opened Tree
  import opened FileUtils
  import opened Config
  import opened PonCtrl
  import opened Rth
  import opened Persistency
  import opened Ani

  // ---------------------------------------------------------------------
  // State
  // ---------------------------------------------------------------------

  /** Everything an operation may read or change: the host tree, the pending
      deferred enables, the file system holding both persistence stores, the
      requests sent to the vendor module so far, and the ignore-param-reads
      flag of the read handler. */
  datatype State = State(
    tree: Tree,
    tasks: seq<RthTask>,
    fs: FileSystem,
    calls: seq<Call>,
    ignoreReads: bool)

  /** What an operation only reads: the configuration, the host's
      transaction engine, and the files whose fopen or fgets fails. */
  datatype Env = Env(cfg: Config, host: Host, unreadable: set<string>)

  /** Return value (true = success) and resulting state. */
  datatype Outcome = Outcome(ok: bool, st: State)

  // ---------------------------------------------------------------------
  // Arguments
  // ---------------------------------------------------------------------

  /** A nested argument: an htable, or a variant of some other type. */
  datatype ArgTable = Table(entries: map<string, Value>) | NotTable

  /** The argument htable of a data-model call. A field is None when the
      key is absent; `path` is also None when its value is not a string. */
  datatype Args = Args(
    path: Option<string>,
    index: Option<nat>,
    keys: Option<ArgTable>,
    parameters: Option<ArgTable>)

  datatype ArgKey = PathArg | IndexArg | KeysArg | ParametersArg

  predicate Has(args: Args, k: ArgKey) {
    match k
    case PathArg => args.path.Some?
    case IndexArg => args.index.Some?
    case KeysArg => args.keys.Some?
    case ParametersArg => args.parameters.Some?
  }

  const ADD_INST_ARGS_REQUIRED: seq<ArgKey> := [PathArg, IndexArg, KeysArg]
  const REMOVE_INST_ARGS_REQUIRED: seq<ArgKey> := [PathArg, IndexArg]
  const CHANGE_OBJ_ARGS_REQUIRED: seq<ArgKey> := [PathArg, ParametersArg]
  const ADD_OR_CHANGE_INST_ARGS_REQUIRED: seq<ArgKey> := [PathArg, IndexArg]

  /** dm_action_info_t after process_args_common(). */
  datatype ActionInfo = ActionInfo(path: string, index: nat, objId: nat, params: Option<map<string, Value>>)

  /** process_args_common(): every required key present, a required index
      non-zero, a path that classifies. An index that is present but not
      required is taken as it is, 0 included; the parameters are taken only
      when they form a table. */
  function ProcessArgsCommon(args: Args, required: seq<ArgKey>): (r: Option<ActionInfo>)
    ensures r.Some? <==>
      && (forall i :: 0 <= i < |required| ==> Has(args, required[i]))
      && (IndexArg in required ==> args.index.Some? && args.index.value != 0)
      && args.path.Some?
      && GetObjectId(args.path.value) != UNKNOWN
    ensures r.Some? ==>
      && r.value.path == args.path.value
      && r.value.objId == GetObjectId(args.path.value) < NBR
      && r.value.index == args.index.GetOr(0)
      && (r.value.params.Some? <==> args.parameters.Some? && args.parameters.value.Table?)
      && (r.value.params.Some? ==> r.value.params.value == args.parameters.value.entries)
  {
    if !(forall i | 0 <= i < |required| :: Has(args, required[i])) then None
    else if IndexArg in required && (args.index.None? || args.index.value == 0) then None
    else if args.path.None? then None
    else
      var id := GetObjectId(args.path.value);
      if id == UNKNOWN then None
      else
        var params := match args.parameters
          case Some(Table(m)) => Some(m)
          case _ => None;
        Some(ActionInfo(args.path.value, args.index.GetOr(0), id, params))
  }

  // ---------------------------------------------------------------------
  // Parameters of a transaction
  // ---------------------------------------------------------------------

  /** The given value names a catalog parameter of object type `id` exactly
      and has that parameter's type. */
  predicate Accepted(id: nat, given: map<string, Value>, n: string)
    requires id < NBR
  {
    n in given && LookupParam(OBJECT_INFO[id].params, n) == Some(TypeOf(given[n]))
  }

  /** add_params_to_transaction(): the accepted entries; every other entry
      is skipped without failing. */
  function AcceptedParams(id: nat, given: map<string, Value>): map<string, Value>
    requires id < NBR
  {
    map n | n in given && Accepted(id, given, n) :: given[n]
  }

  /** The parameters after a transaction that sets `accepted` and, when
      `setEnable`, Enable = true (set last). */
  function ApplyParams(params: map<string, Value>, accepted: map<string, Value>, setEnable: bool): (r: map<string, Value>)
    ensures forall n :: n in r <==> n in params || n in accepted || (setEnable && n == ENABLE_PARAM)
    ensures setEnable ==> r[ENABLE_PARAM] == VBool(true)
    ensures forall n :: n in accepted && !(setEnable && n == ENABLE_PARAM) ==> r[n] == accepted[n]
    ensures forall n :: n in params && n !in accepted && !(setEnable && n == ENABLE_PARAM) ==> r[n] == params[n]
  {
    var p := params + accepted;
    if setEnable then p[ENABLE_PARAM := VBool(true)] else p
  }

  // ---------------------------------------------------------------------
  // Persisted Enable
  // ---------------------------------------------------------------------

  /** Whether the transaction sets Enable, and the deferred enables after. */
  datatype EnableUpdate = EnableUpdate(setEnable: bool, tasks: seq<RthTask>)

  /** update_enable(): for index 0 nothing; otherwise, when path.index is
      enabled according to the persisted flags, set Enable = true and
      schedule a deferred enable of path.index. */
  function UpdateEnable(cfg: Config, fs: FileSystem, tasks: seq<RthTask>, path: string, index: nat): (r: EnableUpdate)
    ensures r.setEnable <==> index != 0 && IsEnabled(cfg.rebootDir, fs, InstPath(path, index))
    ensures r.setEnable ==> r.tasks == Schedule(tasks, InstPath(path, index)).tasks
    ensures r.setEnable ==> Covered(r.tasks, InstPath(path, index))
    ensures !r.setEnable ==> r.tasks == tasks
    ensures forall o :: Covered(tasks, o) ==> Covered(r.tasks, o)
  {
    if index == 0 then EnableUpdate(false, tasks)
    else
      var full := InstPath(path, index);
      if IsEnabled(cfg.rebootDir, fs, full) then
        ScheduleIdempotent(tasks, full);
        forall o | Covered(tasks, o) ensures Covered(Schedule(tasks, full).tasks, o) {
          ScheduleKeepsCovered(tasks, full, o);
        }
        EnableUpdate(true, Schedule(tasks, full).tasks)
      else EnableUpdate(false, tasks)
  }

  // ---------------------------------------------------------------------
  // dm_change_object()
  // ---------------------------------------------------------------------

  /** The object a change is about: path.index for a non-zero index, else
      path itself. */
  function ChangeTarget(info: ActionInfo): string {
    if info.index != 0 then InstPath(info.path, info.index) else info.path
  }

  /** The change attaches the ONU marker and checks the persisted Enable:
      an ONU object that has no private data yet. */
  predicate FirstOnuVisit(tree: Tree, info: ActionInfo) {
    info.objId == ONU && ChangeTarget(info) in tree && tree[ChangeTarget(info)].priv.None?
  }

  /** dm_change_object(). Invalid arguments fail; a missing object is
      ignored with success. An ONU without private data gets the marker and
      the persisted-Enable check before the transaction is applied, so both
      persist when it fails. The transaction sets the accepted parameters
      and fails when the host rejects the object. */
  function ChangeObject(env: Env, st: State, args: Args): (r: Outcome)
    ensures ProcessArgsCommon(args, CHANGE_OBJ_ARGS_REQUIRED).None? ==> r == Outcome(false, st)
    ensures r.st.fs == st.fs && r.st.calls == st.calls && r.st.ignoreReads == st.ignoreReads
    ensures r.st.tree.Keys == st.tree.Keys
    ensures forall k :: k in st.tree && r.st.tree[k] != st.tree[k] ==>
              ProcessArgsCommon(args, CHANGE_OBJ_ARGS_REQUIRED).Some?
              && k == ChangeTarget(ProcessArgsCommon(args, CHANGE_OBJ_ARGS_REQUIRED).value)
    ensures forall k :: k in st.tree ==> r.st.tree[k].isTemplate == st.tree[k].isTemplate
    ensures forall o :: Covered(st.tasks, o) ==> Covered(r.st.tasks, o)
    ensures ProcessArgsCommon(args, CHANGE_OBJ_ARGS_REQUIRED).Some? ==>
      var info := ProcessArgsCommon(args, CHANGE_OBJ_ARGS_REQUIRED).value;
      var t := ChangeTarget(info);
      && (r.ok <==> t !in st.tree || t !in env.host.rejects)
      && (!r.ok ==>
            && r.st.tree[t].params == st.tree[t].params
            && r.st.tree[t].priv == (if FirstOnuVisit(st.tree, info) then Some(OnuMarker) else st.tree[t].priv))
      && (!FirstOnuVisit(st.tree, info) ==> r.st.tasks == st.tasks)
  {
    match ProcessArgsCommon(args, CHANGE_OBJ_ARGS_REQUIRED)
    case None => Outcome(false, st)
    case Some(info) =>
      var target := ChangeTarget(info);
      if target !in st.tree then Outcome(true, st)
      else
        var node := st.tree[target];
        var first := FirstOnuVisit(st.tree, info);
        var upd := if first then UpdateEnable(env.cfg, st.fs, st.tasks, info.path, info.index)
                   else EnableUpdate(false, st.tasks);
        var marked := if first then node.(priv := Some(OnuMarker)) else node;
        var st1 := st.(tree := st.tree[target := marked], tasks := upd.tasks);
        if target in env.host.rejects then Outcome(false, st1)
        else
          var accepted := AcceptedParams(info.objId, info.params.GetOr(map[]));
          var changed := marked.(params := ApplyParams(marked.params, accepted, upd.setEnable));
          Outcome(true, st1.(tree := st1.tree[target := changed]))
  }

  /** Changing an object that does not exist succeeds and changes nothing. */
  lemma ChangeMissingObject(env: Env, st: State, args: Args)
    requires ProcessArgsCommon(args, CHANGE_OBJ_ARGS_REQUIRED).Some?
    requires ChangeTarget(ProcessArgsCommon(args, CHANGE_OBJ_ARGS_REQUIRED).value) !in st.tree
    ensures ChangeObject(env, st, args) == Outcome(true, st)
  {
  }

  /** A successful change sets exactly the accepted parameters (plus Enable
      when the persisted flag of a first-seen ONU instance is set) and keeps
      every other parameter of the object. */
  lemma ChangeSetsAcceptedParams(env: Env, st: State, args: Args, n: string)
    requires ProcessArgsCommon(args, CHANGE_OBJ_ARGS_REQUIRED).Some?
    requires ChangeTarget(ProcessArgsCommon(args, CHANGE_OBJ_ARGS_REQUIRED).value) in st.tree
    requires ChangeObject(env, st, args).ok
    requires n != ENABLE_PARAM
    ensures var info := ProcessArgsCommon(args, CHANGE_OBJ_ARGS_REQUIRED).value;
            var target := ChangeTarget(info);
            var given := info.params.GetOr(map[]);
            var before := st.tree[target].params;
            var after := ChangeObject(env, st, args).st.tree[target].params;
            && (Accepted(info.objId, given, n) ==> n in after && after[n] == given[n])
            && (!Accepted(info.objId, given, n) ==> (n in after <==> n in before))
            && (!Accepted(info.objId, given, n) && n in before ==> after[n] == before[n])
  {
  }

  /** The persisted-Enable check runs at most once per ONU object: a change
      of an ONU object that already carries the marker schedules nothing and
      sets no Enable, and after any change of an existing ONU object the
      marker is present. */
  lemma ChangeChecksOnuOnce(env: Env, st: State, args: Args)
    requires ProcessArgsCommon(args, CHANGE_OBJ_ARGS_REQUIRED).Some?
    requires ProcessArgsCommon(args, CHANGE_OBJ_ARGS_REQUIRED).value.objId == ONU
    requires ChangeTarget(ProcessArgsCommon(args, CHANGE_OBJ_ARGS_REQUIRED).value) in st.tree
    ensures var target := ChangeTarget(ProcessArgsCommon(args, CHANGE_OBJ_ARGS_REQUIRED).value);
            ChangeObject(env, st, args).st.tree[target].priv.Some?
    ensures var target := ChangeTarget(ProcessArgsCommon(args, CHANGE_OBJ_ARGS_REQUIRED).value);
            st.tree[target].priv.Some? ==>
              && ChangeObject(env, st, args).st.tasks == st.tasks
              && (ChangeObject(env, st, args).ok ==>
                    ChangeObject(env, st, args).st.tree[target].params
                    == ApplyParams(st.tree[target].params,
                                   AcceptedParams(ONU, ProcessArgsCommon(args, CHANGE_OBJ_ARGS_REQUIRED).value.params.GetOr(map[])),
                                   false))
  {
  }

  /** The first change of an ONU instance whose persisted flag is set
      schedules its deferred enable, even when the host then rejects the
      change, and a successful one sets Enable = true. */
  lemma FirstOnuChangeRestoresEnable(env: Env, st: State, args: Args)
    requires ProcessArgsCommon(args, CHANGE_OBJ_ARGS_REQUIRED).Some?
    requires var info := ProcessArgsCommon(args, CHANGE_OBJ_ARGS_REQUIRED).value;
             && FirstOnuVisit(st.tree, info) && info.index != 0
             && IsEnabled(env.cfg.rebootDir, st.fs, InstPath(info.path, info.index))
    ensures var info := ProcessArgsCommon(args, CHANGE_OBJ_ARGS_REQUIRED).value;
            var r := ChangeObject(env, st, args);
            && Covered(r.st.tasks, InstPath(info.path, info.index))
            && (r.ok ==> r.st.tree[ChangeTarget(info)].params[ENABLE_PARAM] == VBool(true))
  {
  }

  // ---------------------------------------------------------------------
  // Reads used by the password rules
  // ---------------------------------------------------------------------

  const HEXADECIMAL_PASSWORD_PARAM: string := "HexadecimalPassword"
  const PASSWORD_PARAM: string := "Password"
  const PON_MODE_PARAM: string := "PONMode"

  /** dm_is_hex_password(): reads HexadecimalPassword of the ANI's
      TC.Authentication object. Fails when the object or the parameter is
      missing; a value that is not a boolean reads as false. */
  function IsHexPassword(tree: Tree, aniPath: string): (r: Option<bool>)
    ensures r.Some? <==> Append(aniPath) in tree && HEXADECIMAL_PASSWORD_PARAM in tree[Append(aniPath)].params
    ensures r == Some(true) <==>
      Append(aniPath) in tree && HEXADECIMAL_PASSWORD_PARAM in tree[Append(aniPath)].params
      && tree[Append(aniPath)].params[HEXADECIMAL_PASSWORD_PARAM] == VBool(true)
  {
    var auth := Append(aniPath);
    if auth !in tree || HEXADECIMAL_PASSWORD_PARAM !in tree[auth].params then None
    else match tree[auth].params[HEXADECIMAL_PASSWORD_PARAM]
      case VBool(b) => Some(b)
      case _ => Some(false)
  }

  /** pon_mode_t */
  datatype PonMode = Unknown | GPon | XgPon | NgPon2 | XgsPon

  /** The PONMode string of each mode. */
  function PonModeName(m: PonMode): string {
    match m
    case Unknown => "Unknown"
    case GPon => "G-PON"
    case XgPon => "XG-PON"
    case NgPon2 => "NG-PON2"
    case XgsPon => "XGS-PON"
  }

  /** The mapping of dm_get_ani_pon_mode(): the mode whose name is a prefix
      of `s` (the comparisons are strncmp() over the name's length), tried
      in declaration order; None for an invalid mode. */
  function PonModeOf(s: string): (r: Option<PonMode>)
    ensures r.Some? ==> StartsWith(s, PonModeName(r.value))
    ensures r.None? <==> forall m: PonMode :: !StartsWith(s, PonModeName(m))
  {
    if StartsWith(s, "Unknown") then Some(Unknown)
    else if StartsWith(s, "G-PON") then Some(GPon)
    else if StartsWith(s, "XG-PON") then Some(XgPon)
    else if StartsWith(s, "NG-PON2") then Some(NgPon2)
    else if StartsWith(s, "XGS-PON") then Some(XgsPon)
    else None
  }

  /** Each mode's own name maps back to that mode; in particular "XGS-PON"
      is not taken for "XG-PON". */
  lemma PonModeRoundTrip(m: PonMode)
    ensures PonModeOf(PonModeName(m)) == Some(m)
  {
    match m
    case Unknown =>
    case GPon => assert PonModeName(m)[0] != "Unknown"[0];
    case XgPon =>
      assert PonModeName(m)[0] != "Unknown"[0];
      assert PonModeName(m)[0] != "G-PON"[0];
    case NgPon2 =>
      assert PonModeName(m)[0] != "Unknown"[0];
      assert PonModeName(m)[0] != "G-PON"[0];
      assert PonModeName(m)[0] != "XG-PON"[0];
    case XgsPon =>
      assert PonModeName(m)[0] != "Unknown"[0];
      assert PonModeName(m)[0] != "G-PON"[0];
      assert PonModeName(m)[2] != "XG-PON"[2];
      assert PonModeName(m)[0] != "NG-PON2"[0];
  }

  /** dm_get_ani_pon_mode(): fails when the ANI or its PONMode is missing or
      the mode is invalid. A PONMode that is not a string also fails here
      (the C code would pass NULL to strncmp()). */
  function GetAniPonMode(tree: Tree, aniPath: string): (r: Option<PonMode>)
    ensures r.Some? ==>
      && aniPath in tree && PON_MODE_PARAM in tree[aniPath].params
      && tree[aniPath].params[PON_MODE_PARAM].VStr?
      && StartsWith(tree[aniPath].params[PON_MODE_PARAM].s, PonModeName(r.value))
    ensures aniPath in tree && PON_MODE_PARAM in tree[aniPath].params
            && tree[aniPath].params[PON_MODE_PARAM].VStr? ==>
              r == PonModeOf(tree[aniPath].params[PON_MODE_PARAM].s)
  {
    if aniPath !in tree || PON_MODE_PARAM !in tree[aniPath].params then None
    else match tree[aniPath].params[PON_MODE_PARAM]
      case VStr(s) => PonModeOf(s)
      case _ => None
  }
}
