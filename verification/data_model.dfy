/** The instance transactions the vendor module drives: add an instance,
    remove one, add-or-change, remove all instances of a template, and the
    OMCI reset-MIB handling. Each transaction either yields a new tree or
    fails and leaves the tree as it was. */
module DataModel {
  import opened Wrappers
  import opened Strs
  import opened DmInfo
  import opened Tree
  import opened Config
  import opened Rth
  import opened Persistency
  import opened Ani
  import opened DmChange
  import Password

  // ---------------------------------------------------------------------
  // dm_add_instance()
  // ---------------------------------------------------------------------

  /** The arguments of an add after process_add_instance_args(): the common
      part plus the name and value of the new instance's key. */
  datatype AddInfo = AddInfo(info: ActionInfo, keyName: string, keyValue: Value)

  /** amxc_var_constcast(uint32_t, v): the number for a uint32 variant, 0 for
      any other type. */
  function U32Of(v: Value): nat {
    match v
    case VU32(u) => u
    case _ => 0
  }

  /** process_add_instance_args(): the common checks with path, index and
      keys required, then `keys` must be a table holding a value for the
      object type's key; a uint32 key (one whose name does not start with
      "Name") may not exceed the type's maximum, which itself is allowed. */
  function ProcessAddInstanceArgs(args: Args): (r: Option<AddInfo>)
    ensures r.Some? <==>
      && ProcessArgsCommon(args, ADD_INST_ARGS_REQUIRED).Some?
      && args.keys.Some? && args.keys.value.Table?
      && var id := ProcessArgsCommon(args, ADD_INST_ARGS_REQUIRED).value.objId;
         && OBJECT_INFO[id].keyName.Some?
         && OBJECT_INFO[id].keyName.value in args.keys.value.entries
         && (KeyIsUInt32(OBJECT_INFO[id]) ==>
               U32Of(args.keys.value.entries[OBJECT_INFO[id].keyName.value]) <= OBJECT_INFO[id].keyMaxValue)
    ensures r.Some? ==>
      && r.value.info == ProcessArgsCommon(args, ADD_INST_ARGS_REQUIRED).value
      && r.value.info.index != 0
      && Some(r.value.keyName) == OBJECT_INFO[r.value.info.objId].keyName
      && r.value.keyValue == args.keys.value.entries[r.value.keyName]
  {
    match ProcessArgsCommon(args, ADD_INST_ARGS_REQUIRED)
    case None => None
    case Some(info) =>
      assert Has(args, ADD_INST_ARGS_REQUIRED[1]) && Has(args, ADD_INST_ARGS_REQUIRED[2]);
      var obj := OBJECT_INFO[info.objId];
      match args.keys
      case Some(Table(keys)) =>
        if obj.keyName.None? || obj.keyName.value !in keys then None
        else if KeyIsUInt32(obj) && U32Of(keys[obj.keyName.value]) > obj.keyMaxValue then None
        else Some(AddInfo(info, obj.keyName.value, keys[obj.keyName.value]))
      case _ => None
  }

  /** prepare_adding_instance(): the path names an existing template object
      that does not yet have instance `index`. */
  predicate PrepareAdd(tree: Tree, info: ActionInfo) {
    info.path in tree && tree[info.path].isTemplate && InstPath(info.path, info.index) !in tree
  }

  /** The host refuses to create the instance: its validators reject it, or
      its key value is already used by a sibling. */
  predicate AddRejected(host: Host, tree: Tree, a: AddInfo) {
    InstPath(a.info.path, a.info.index) in host.rejects
    || KeyClash(tree, a.info.path, a.keyName, a.keyValue)
  }

  /** The parameters of a new instance: every catalog parameter at its
      default, then the key, then the accepted given parameters, then
      Enable = true when the persisted flag asks for it. */
  function NewParams(a: AddInfo, setEnable: bool): (r: map<string, Value>)
    requires a.info.objId < NBR
    ensures forall i :: 0 <= i < |OBJECT_INFO[a.info.objId].params| ==> OBJECT_INFO[a.info.objId].params[i].name in r
    ensures a.keyName in r
    ensures setEnable ==> ENABLE_PARAM in r && r[ENABLE_PARAM] == VBool(true)
    ensures forall n :: Accepted(a.info.objId, a.info.params.GetOr(map[]), n) && !(setEnable && n == ENABLE_PARAM) ==>
              r[n] == a.info.params.GetOr(map[])[n]
  {
    var id := a.info.objId;
    var defaults := DefaultParams(OBJECT_INFO[id].params);
    ApplyParams(defaults[a.keyName := a.keyValue], AcceptedParams(id, a.info.params.GetOr(map[])), setEnable)
  }

  /** The tree with `node` at `inst` and the nodes of `subs` below it. */
  function Instantiate(tree: Tree, inst: string, node: Node, subs: seq<SubObject>): (r: Tree)
    requires forall i :: 0 <= i < |subs| ==> subs[i].id < NBR
    ensures inst in r && r[inst] == node
    ensures forall k :: k in r <==> k in tree || k in SubObjectNodes(inst, subs) || k == inst
    ensures forall k :: k in r && k !in tree ==> InSubtree(inst, k)
    ensures forall k :: k in tree && !InSubtree(inst, k) ==> r[k] == tree[k]
  {
    var nodes := SubObjectNodes(inst, subs);
    forall k | k in nodes ensures InSubtree(inst, k) {
      var i :| 0 <= i < |subs| && k == inst + "." + subs[i].rel;
      assert k == (inst + ".") + subs[i].rel;
      StartsWithAppend(inst + ".", subs[i].rel);
    }
    (tree + nodes)[inst := node]
  }

  /** The tree after the host created instance `inst` of type `id` with its
      sub-objects; only an ONU instance gets private data here (the marker
      that its persisted Enable has been handled). */
  function Created(tree: Tree, inst: string, id: nat, params: map<string, Value>): (r: Tree)
    requires id < NBR
    ensures inst in r && r[inst].params == params && !r[inst].isTemplate
    ensures r[inst].priv == (if id == ONU then Some(OnuMarker) else None)
    ensures forall k :: k in r <==> k in tree || k in SubObjectNodes(inst, SubObjects(id)) || k == inst
    ensures forall k :: k in r && k !in tree ==> InSubtree(inst, k)
    ensures forall k :: k in tree && !InSubtree(inst, k) ==> r[k] == tree[k]
  {
    SubObjectsValid(id);
    Instantiate(tree, inst, Node(params, if id == ONU then Some(OnuMarker) else None, false), SubObjects(id))
  }

  /** add_instance(). Fails without any change when the template is missing,
      is not a template, or already has the instance. For a type with a
      read-write Enable the persisted flag is checked first: when set, the
      deferred enable is scheduled (kept even if the host then refuses the
      instance) and the instance is created with Enable = true. After a
      successful add of an ANI its saved password is restored. */
  function AddInstance(env: Env, st: State, a: AddInfo): (r: Outcome)
    requires env.cfg.Valid()
    ensures !PrepareAdd(st.tree, a.info) || a.info.objId >= NBR ==> r == Outcome(false, st)
    ensures r.ok <==> PrepareAdd(st.tree, a.info) && a.info.objId < NBR && !AddRejected(env.host, st.tree, a)
    ensures !r.ok ==> r.st.tree == st.tree
    ensures r.st.fs == st.fs && r.st.calls == st.calls && r.st.ignoreReads == st.ignoreReads
  {
    if a.info.objId >= NBR || !PrepareAdd(st.tree, a.info) then Outcome(false, st)
    else
      var inst := InstPath(a.info.path, a.info.index);
      var upd := if OBJECT_INFO[a.info.objId].hasRwEnable
                 then UpdateEnable(env.cfg, st.fs, st.tasks, a.info.path, a.info.index)
                 else EnableUpdate(false, st.tasks);
      var st1 := st.(tasks := upd.tasks);
      if AddRejected(env.host, st.tree, a) then Outcome(false, st1)
      else
        var st2 := st1.(tree := Created(st.tree, inst, a.info.objId, NewParams(a, upd.setEnable)));
        if a.info.objId == ANI then Outcome(true, Password.Restore(env, st2, inst))
        else Outcome(true, st2)
  }

  /** The node of a new instance: not a template, every catalog parameter,
      the key, the accepted given parameters (Enable aside), and the ONU
      marker exactly for an ONU. */
  predicate NewInstance(n: Node, a: AddInfo)
    requires a.info.objId < NBR
  {
    var id := a.info.objId;
    var given := a.info.params.GetOr(map[]);
    && !n.isTemplate
    && (forall i :: 0 <= i < |OBJECT_INFO[id].params| ==> OBJECT_INFO[id].params[i].name in n.params)
    && a.keyName in n.params
    && (forall m :: m in given && Accepted(id, given, m) && m != ENABLE_PARAM ==> m in n.params && n.params[m] == given[m])
    && (id == ONU <==> n.priv == Some(OnuMarker))
  }

  /** A successful add creates the instance with every catalog parameter,
      the key, the accepted given parameters and the sub-objects, and keeps
      every object outside the new instance's subtree. */
  lemma AddCreatesInstance(env: Env, st: State, a: AddInfo)
    requires env.cfg.Valid()
    requires PrepareAdd(st.tree, a.info) && a.info.objId < NBR && !AddRejected(env.host, st.tree, a)
    ensures var inst := InstPath(a.info.path, a.info.index);
            var t := AddInstance(env, st, a).st.tree;
            && inst in t && inst !in st.tree && NewInstance(t[inst], a)
            && (forall k :: k in st.tree ==> k in t)
            && (forall k :: k in t && k !in st.tree ==> InSubtree(inst, k))
            && (forall k :: k in st.tree && !InSubtree(inst, k) ==> t[k] == st.tree[k])
  {
    var inst := InstPath(a.info.path, a.info.index);
    var upd := if OBJECT_INFO[a.info.objId].hasRwEnable
               then UpdateEnable(env.cfg, st.fs, st.tasks, a.info.path, a.info.index)
               else EnableUpdate(false, st.tasks);
    var created := Created(st.tree, inst, a.info.objId, NewParams(a, upd.setEnable));
    var st2 := st.(tasks := upd.tasks, tree := created);
    AddSteps(env, st, a);
    CreatedIsNewInstance(st.tree, a, upd.setEnable);
    var t := AddInstance(env, st, a).st.tree;
    if a.info.objId == ANI {
      AppendBelow(inst);
      RestoreKeepsAni(env, st2, inst);
      assert t == Password.Restore(env, st2, inst).tree;
      forall k | k in created && !InSubtree(inst, k) ensures t[k] == created[k] {
        assert k != Append(inst);
      }
    }
    assert t.Keys == created.Keys && t[inst] == created[inst];
  }

  /** The instance node the host creates satisfies NewInstance. */
  lemma CreatedIsNewInstance(tree: Tree, a: AddInfo, setEnable: bool)
    requires a.info.objId < NBR
    ensures var inst := InstPath(a.info.path, a.info.index);
            NewInstance(Created(tree, inst, a.info.objId, NewParams(a, setEnable))[inst], a)
  {
  }

  /** Whether an add restores the persisted Enable of its new instance. */
  predicate RestoresEnable(env: Env, st: State, a: AddInfo)
    requires a.info.objId < NBR
  {
    OBJECT_INFO[a.info.objId].hasRwEnable && IsEnabled(env.cfg.rebootDir, st.fs, InstPath(a.info.path, a.info.index))
  }

  /** The tasks and tree of an add that gets past the template check: the
      deferred enables as UpdateEnable leaves them, and, when the host
      accepts, the created instance (followed, for an ANI, by the password
      restore). */
  lemma AddSteps(env: Env, st: State, a: AddInfo)
    requires env.cfg.Valid()
    requires PrepareAdd(st.tree, a.info) && a.info.objId < NBR
    ensures var inst := InstPath(a.info.path, a.info.index);
            var r := AddInstance(env, st, a);
            var upd := if OBJECT_INFO[a.info.objId].hasRwEnable
                       then UpdateEnable(env.cfg, st.fs, st.tasks, a.info.path, a.info.index)
                       else EnableUpdate(false, st.tasks);
            var st2 := st.(tasks := upd.tasks, tree := Created(st.tree, inst, a.info.objId, NewParams(a, upd.setEnable)));
            && (!r.ok ==> r.st.tasks == upd.tasks)
            && (r.ok && a.info.objId != ANI ==> r.st == st2)
            && (r.ok && a.info.objId == ANI ==> r.st == Password.Restore(env, st2, inst))
  {
  }

  /** The persisted Enable of a type with a read-write Enable: when the flag
      of the new instance is set, its deferred enable is scheduled whether or
      not the add succeeds, and a successful add sets Enable = true; when it
      is not set (or the type has no read-write Enable) nothing is
      scheduled. */
  lemma AddRestoresEnable(env: Env, st: State, a: AddInfo)
    requires env.cfg.Valid()
    requires PrepareAdd(st.tree, a.info) && a.info.objId < NBR && a.info.index != 0
    ensures var inst := InstPath(a.info.path, a.info.index);
            var r := AddInstance(env, st, a);
            && (RestoresEnable(env, st, a) ==> Covered(r.st.tasks, inst))
            && (RestoresEnable(env, st, a) && r.ok ==>
                  ENABLE_PARAM in r.st.tree[inst].params && r.st.tree[inst].params[ENABLE_PARAM] == VBool(true))
            && (!RestoresEnable(env, st, a) && a.info.objId != ANI ==> r.st.tasks == st.tasks)
  {
    var inst := InstPath(a.info.path, a.info.index);
    var upd := if OBJECT_INFO[a.info.objId].hasRwEnable
               then UpdateEnable(env.cfg, st.fs, st.tasks, a.info.path, a.info.index)
               else EnableUpdate(false, st.tasks);
    var st2 := st.(tasks := upd.tasks, tree := Created(st.tree, inst, a.info.objId, NewParams(a, upd.setEnable)));
    AddSteps(env, st, a);
    assert upd.setEnable <==> RestoresEnable(env, st, a);
    if a.info.objId == ANI && AddInstance(env, st, a).ok {
      AppendBelow(inst);
      RestoreKeepsAni(env, st2, inst);
    }
  }

  /** The password restore of a new ANI keeps the ANI object itself and
      every pending enable. */
  lemma RestoreKeepsAni(env: Env, st: State, inst: string)
    requires env.cfg.Valid() && inst in st.tree
    ensures var r := Password.Restore(env, st, inst);
            && inst in r.tree && r.tree[inst] == st.tree[inst]
            && forall o :: Covered(st.tasks, o) ==> Covered(r.tasks, o)
  {
    AppendBelow(inst);
  }

  /** dm_add_instance() */
  function DmAddInstance(env: Env, st: State, args: Args): (r: Outcome)
    requires env.cfg.Valid()
    ensures ProcessAddInstanceArgs(args).None? ==> r == Outcome(false, st)
    ensures ProcessAddInstanceArgs(args).Some? ==> r == AddInstance(env, st, ProcessAddInstanceArgs(args).value)
  {
    match ProcessAddInstanceArgs(args)
    case None => Outcome(false, st)
    case Some(a) => AddInstance(env, st, a)
  }

  /** An add is refused, with the tree unchanged, when the index is 0 or
      missing, or the key value is missing or a uint32 above the maximum. */
  lemma AddRejectsBadArgs(env: Env, st: State, args: Args)
    requires env.cfg.Valid()
    requires || args.index.None? || args.index == Some(0)
             || (ProcessArgsCommon(args, ADD_INST_ARGS_REQUIRED).Some? && args.keys.Some? && args.keys.value.Table?
                 && var obj := OBJECT_INFO[ProcessArgsCommon(args, ADD_INST_ARGS_REQUIRED).value.objId];
                    obj.keyName.Some?
                    && (obj.keyName.value !in args.keys.value.entries
                        || (KeyIsUInt32(obj) && U32Of(args.keys.value.entries[obj.keyName.value]) > obj.keyMaxValue)))
    ensures DmAddInstance(env, st, args) == Outcome(false, st)
  {
    if args.index.None? || args.index == Some(0) {
      assert IndexArg in ADD_INST_ARGS_REQUIRED;
    }
  }

  // ---------------------------------------------------------------------
  // dm_remove_instance()
  // ---------------------------------------------------------------------

  /** The outcome of a removal, with the value the ignore-param-reads flag
      had while the host applied the deletion (false when nothing was
      applied). */
  datatype RemoveOutcome = RemoveOutcome(ok: bool, st: State, ignoredDuringApply: bool)

  /** remove_instance() after process_remove_instance_args(). A missing
      template or instance is a successful no-op; a path that is not a
      template fails. Reads are ignored while the deletion is applied, and
      the flag is false afterwards whether or not the host accepted it. */
  function RemoveInstance(env: Env, st: State, args: Args): (r: RemoveOutcome)
    ensures r.st.fs == st.fs && r.st.calls == st.calls && r.st.tasks == st.tasks
    ensures ProcessArgsCommon(args, REMOVE_INST_ARGS_REQUIRED).None? ==> r == RemoveOutcome(false, st, false)
    ensures ProcessArgsCommon(args, REMOVE_INST_ARGS_REQUIRED).Some? ==>
      var info := ProcessArgsCommon(args, REMOVE_INST_ARGS_REQUIRED).value;
      var inst := InstPath(info.path, info.index);
      && (info.path !in st.tree || (st.tree[info.path].isTemplate && inst !in st.tree) ==> r == RemoveOutcome(true, st, false))
      && (info.path in st.tree && !st.tree[info.path].isTemplate ==> r == RemoveOutcome(false, st, false))
      && (info.path in st.tree && st.tree[info.path].isTemplate && inst in st.tree ==>
            && r.ignoredDuringApply && !r.st.ignoreReads
            && (r.ok <==> inst !in env.host.rejects)
            && (r.ok ==> r.st.tree == RemoveSubtree(st.tree, inst))
            && (!r.ok ==> r.st.tree == st.tree))
  {
    match ProcessArgsCommon(args, REMOVE_INST_ARGS_REQUIRED)
    case None => RemoveOutcome(false, st, false)
    case Some(info) =>
      var inst := InstPath(info.path, info.index);
      if info.path !in st.tree then RemoveOutcome(true, st, false)
      else if !st.tree[info.path].isTemplate then RemoveOutcome(false, st, false)
      else if inst !in st.tree then RemoveOutcome(true, st, false)
      else
        var during := true;
        if inst in env.host.rejects then RemoveOutcome(false, st.(ignoreReads := false), during)
        else RemoveOutcome(true, st.(tree := RemoveSubtree(st.tree, inst), ignoreReads := false), during)
  }

  /** Removing an instance twice is the same as removing it once: the second
      removal finds no instance and succeeds without a change. */
  lemma RemoveIdempotent(env: Env, st: State, args: Args)
    requires RemoveInstance(env, st, args).ok
    ensures var st1 := RemoveInstance(env, st, args).st;
            RemoveInstance(env, st1, args) == RemoveOutcome(true, st1, false)
  {
    var info := ProcessArgsCommon(args, REMOVE_INST_ARGS_REQUIRED).value;
    var inst := InstPath(info.path, info.index);
    var st1 := RemoveInstance(env, st, args).st;
    if info.path in st.tree && st.tree[info.path].isTemplate && inst in st.tree {
      assert InSubtree(inst, inst);
      assert inst !in st1.tree;
      if info.path in st1.tree {
        assert st1.tree[info.path] == st.tree[info.path];
      }
    }
  }

  /** A tree that grew only inside the subtree of `inst` shrinks back to
      the original when that subtree is removed. */
  lemma RemoveGrownSubtree(t0: Tree, t1: Tree, inst: string)
    requires forall k :: k in t0 ==> k in t1 && !InSubtree(inst, k) && t1[k] == t0[k]
    requires forall k :: k in t1 && k !in t0 ==> InSubtree(inst, k)
    ensures RemoveSubtree(t1, inst) == t0
  {
  }

  /** Arguments good for an add are good for a removal and read the same. */
  lemma RemoveArgsOfAddArgs(args: Args)
    requires ProcessArgsCommon(args, ADD_INST_ARGS_REQUIRED).Some?
    ensures ProcessArgsCommon(args, REMOVE_INST_ARGS_REQUIRED) == ProcessArgsCommon(args, ADD_INST_ARGS_REQUIRED)
  {
    assert Has(args, ADD_INST_ARGS_REQUIRED[0]) && Has(args, ADD_INST_ARGS_REQUIRED[1]);
  }

  /** Adding an instance into a tree that holds nothing at or below its path
      and then removing it gives the original tree back. */
  lemma AddThenRemove(env: Env, st: State, args: Args)
    requires env.cfg.Valid()
    requires DmAddInstance(env, st, args).ok
    requires ProcessAddInstanceArgs(args).Some?
    requires var info := ProcessAddInstanceArgs(args).value.info;
             forall k :: k in st.tree ==> !InSubtree(InstPath(info.path, info.index), k)
    ensures var st1 := DmAddInstance(env, st, args).st;
            var r := RemoveInstance(env, st1, args);
            r.ok && r.st.tree == st.tree
  {
    var a := ProcessAddInstanceArgs(args).value;
    var inst := InstPath(a.info.path, a.info.index);
    var st1 := AddInstance(env, st, a).st;
    AddCreatesInstance(env, st, a);
    RemoveArgsOfAddArgs(args);
    assert !InSubtree(inst, a.info.path) by {
      assert |a.info.path| < |inst|;
    }
    assert st1.tree[a.info.path] == st.tree[a.info.path];
    RemoveGrownSubtree(st.tree, st1.tree, inst);
  }

  // ---------------------------------------------------------------------
  // dm_change_object() and dm_add_or_change_instance_impl()
  // ---------------------------------------------------------------------

  /** dm_add_or_change_instance_impl(): with path and index present (index
      non-zero), change the instance when it exists and add it otherwise;
      each branch re-reads the arguments with its own required keys. */
  function AddOrChange(env: Env, st: State, args: Args): (r: Outcome)
    requires env.cfg.Valid()
    ensures ProcessArgsCommon(args, ADD_OR_CHANGE_INST_ARGS_REQUIRED).None? ==> r == Outcome(false, st)
    ensures ProcessArgsCommon(args, ADD_OR_CHANGE_INST_ARGS_REQUIRED).Some? ==>
      var info := ProcessArgsCommon(args, ADD_OR_CHANGE_INST_ARGS_REQUIRED).value;
      && (InstanceExists(st.tree, info.path, info.index) ==> r == ChangeObject(env, st, args))
      && (!InstanceExists(st.tree, info.path, info.index) ==> r == DmAddInstance(env, st, args))
  {
    match ProcessArgsCommon(args, ADD_OR_CHANGE_INST_ARGS_REQUIRED)
    case None => Outcome(false, st)
    case Some(info) =>
      if InstanceExists(st.tree, info.path, info.index) then ChangeObject(env, st, args)
      else DmAddInstance(env, st, args)
  }

  /** An add-or-change of an existing instance creates and deletes no
      object; one of a missing instance never touches an existing object
      outside the new instance's subtree. */
  lemma AddOrChangeFrame(env: Env, st: State, args: Args)
    requires env.cfg.Valid()
    requires ProcessArgsCommon(args, ADD_OR_CHANGE_INST_ARGS_REQUIRED).Some?
    ensures var info := ProcessArgsCommon(args, ADD_OR_CHANGE_INST_ARGS_REQUIRED).value;
            var r := AddOrChange(env, st, args);
            && (InstanceExists(st.tree, info.path, info.index) ==> r.st.tree.Keys == st.tree.Keys)
            && (!InstanceExists(st.tree, info.path, info.index) ==>
                  forall k :: k in st.tree && !InSubtree(InstPath(info.path, info.index), k) ==>
                    k in r.st.tree && r.st.tree[k] == st.tree[k])
  {
    var info := ProcessArgsCommon(args, ADD_OR_CHANGE_INST_ARGS_REQUIRED).value;
    if !InstanceExists(st.tree, info.path, info.index) {
      match ProcessAddInstanceArgs(args)
      case None =>
      case Some(a) =>
        assert a.info.path == info.path && a.info.index == info.index;
        if AddInstance(env, st, a).ok {
          AddCreatesInstance(env, st, a);
        }
    }
  }

  // ---------------------------------------------------------------------
  // remove_all_instances() and dm_omci_reset_mib()
  // ---------------------------------------------------------------------

  /** remove_all_instances(): fails for a missing or non-template object;
      succeeds without a transaction when there are no instances; otherwise
      deletes every instance (and what lies below it) in one transaction
      the host may refuse. */
  function RemoveAllInstances(host: Host, tree: Tree, templ: string): (r: Option<Tree>)
    ensures r.Some? <==> templ in tree && tree[templ].isTemplate && (InstanceCount(tree, templ) == 0 || templ !in host.rejects)
    ensures r.Some? ==> InstanceKeys(r.value, templ) == {}
    ensures r.Some? ==> forall k :: k in r.value <==> k in tree && (InstanceCount(tree, templ) == 0 || !StartsWith(k, templ + "."))
    ensures r.Some? ==> forall k :: k in r.value ==> r.value[k] == tree[k]
  {
    if templ !in tree || !tree[templ].isTemplate then None
    else if InstanceCount(tree, templ) == 0 then Some(tree)
    else if templ in host.rejects then None
    else Some(map k | k in tree && !StartsWith(k, templ + ".") :: tree[k])
  }

  const STATUS_PARAM: string := "Status"

  /** One EthernetUNI instance after set_ethernet_uni_status_to_down(): a
      Status starting with "Up" becomes "Down". */
  function StatusDown(n: Node): (r: Node)
    ensures r.priv == n.priv && r.isTemplate == n.isTemplate && r.params.Keys == n.params.Keys
    ensures forall p :: p in n.params && p != STATUS_PARAM ==> r.params[p] == n.params[p]
    ensures STATUS_PARAM in r.params && r.params[STATUS_PARAM].VStr? ==> !StartsWith(r.params[STATUS_PARAM].s, "Up")
  {
    assert !StartsWith("Down", "Up") by { assert "Down"[0] != "Up"[0]; }
    if STATUS_PARAM in n.params && n.params[STATUS_PARAM].VStr? && StartsWith(n.params[STATUS_PARAM].s, "Up")
    then n.(params := n.params[STATUS_PARAM := VStr("Down")])
    else n
  }

  /** The existing instances of a child template of `onu`. */
  function ChildInstances(tree: Tree, onu: string, child: string): set<string> {
    var templ := onu + "." + child;
    if templ in tree && tree[templ].isTemplate then InstanceKeys(tree, templ) else {}
  }

  /** remove_all_instances() deletes the instances of `templ` and succeeds:
      it is a template with instances and the host accepts the deletion. */
  predicate InstancesCleared(host: Host, tree: Tree, templ: string) {
    templ in tree && tree[templ].isTemplate && InstanceCount(tree, templ) > 0 && templ !in host.rejects
  }

  lemma InstancesClearedByRemoveAll(host: Host, tree: Tree, templ: string)
    ensures InstancesCleared(host, tree, templ) <==>
      RemoveAllInstances(host, tree, templ).Some? && InstanceCount(tree, templ) > 0
  {
  }

  const GEM_PORT_REL: string := ".TC.GEM.Port"

  /** The GEM-port templates of the ONU's ANI instances whose instances
      reset-MIB deletes. */
  function ClearedPorts(host: Host, tree: Tree, onu: string): set<string> {
    set a | a in ChildInstances(tree, onu, "ANI") && InstancesCleared(host, tree, a + GEM_PORT_REL) :: a + GEM_PORT_REL
  }

  /** `k` lies strictly below one of the templates in `ports`. */
  predicate BelowSome(ports: set<string>, k: string) {
    exists p :: p in ports && StartsWith(k, p + ".")
  }

  /** The tree with the Status of the `unis` brought down and everything
      strictly below the `ports` removed. */
  function ResetTree(tree: Tree, unis: set<string>, ports: set<string>): (r: Tree)
    ensures forall k :: k in r <==> k in tree && !BelowSome(ports, k)
    ensures forall k :: k in r && k in unis ==> r[k] == StatusDown(tree[k])
    ensures forall k :: k in r && k !in unis ==> r[k] == tree[k]
  {
    map k | k in tree && !BelowSome(ports, k) :: if k in unis then StatusDown(tree[k]) else tree[k]
  }

  /** The work of dm_omci_reset_mib() on the ONU instance at `onu`: nothing
      when it does not exist; otherwise every EthernetUNI instance whose
      Status starts with "Up" goes "Down", and every ANI instance's GEM
      ports are removed (per ANI, as far as the host accepts it). */
  function ResetMibAt(env: Env, st: State, onu: string): (r: State)
    ensures r.fs == st.fs && r.calls == st.calls && r.tasks == st.tasks && r.ignoreReads == st.ignoreReads
    ensures onu !in st.tree ==> r == st
    ensures r.tree.Keys <= st.tree.Keys
  {
    if onu !in st.tree then st
    else st.(tree := ResetTree(st.tree, ChildInstances(st.tree, onu, "EthernetUNI"), ClearedPorts(env.host, st.tree, onu)))
  }

  /** The corrected ONU path: the full instance path "XPON.ONU.<index>". */
  function OnuPath(index: nat): string {
    InstPath(ONU_PATH, index)
  }

  /** The ONU path as dm_omci_reset_mib() builds it, with snprintf() into a
      16-byte buffer: at most 15 characters survive. */
  function OnuPathAsWritten(index: nat): string {
    Truncate(ONU_PATH + "." + NatToString(index), 15)
  }

  /** dm_omci_reset_mib() as written: fails for a missing or zero index and
      otherwise succeeds, resetting the ONU at the truncated path. */
  function ResetMibAsWritten(env: Env, st: State, index: Option<nat>): (r: Outcome)
    ensures index.None? || index == Some(0) ==> r == Outcome(false, st)
    ensures index.Some? && 0 < index.value < 1000000 ==> r == ResetMib(env, st, index)
    ensures index.Some? && 1000000 <= index.value < 10000000 ==> r == ResetMib(env, st, Some(index.value / 10))
  {
    if index.None? || index.value == 0 then Outcome(false, st)
    else
      OnuPathTruncation(index.value);
      Outcome(true, ResetMibAt(env, st, OnuPathAsWritten(index.value)))
  }

  /** dm_omci_reset_mib() with the full ONU path. */
  function ResetMib(env: Env, st: State, index: Option<nat>): (r: Outcome)
    ensures index.None? || index == Some(0) ==> r == Outcome(false, st)
    ensures index.Some? && index.value != 0 ==>
      && r.ok && r.st.tree.Keys <= st.tree.Keys
      && r.st.fs == st.fs && r.st.calls == st.calls && r.st.tasks == st.tasks
    ensures index.Some? && index.value != 0 && OnuPath(index.value) !in st.tree ==> r == Outcome(true, st)
    ensures index.Some? && index.value != 0 && OnuPath(index.value) in st.tree ==>
      var t := r.st.tree;
      forall k ::
        (k in t && k in ChildInstances(st.tree, OnuPath(index.value), "EthernetUNI")
         && STATUS_PARAM in t[k].params && t[k].params[STATUS_PARAM].VStr?) ==>
          !StartsWith(t[k].params[STATUS_PARAM].s, "Up")
  {
    if index.None? || index.value == 0 then Outcome(false, st)
    else if OnuPath(index.value) !in st.tree then Outcome(true, ResetMibAt(env, st, OnuPath(index.value)))
    else
      ResetMibUnisDown(env, st, OnuPath(index.value));
      Outcome(true, ResetMibAt(env, st, OnuPath(index.value)))
  }

  /** The as-written path is the full ONU path for indexes below 10^6 (so
      the corrected definition agrees there) and differs from it from 10^6
      on: then the reset acts on the ONU whose index is the first six
      digits, e.g. index 1000001 resets XPON.ONU.100000. */
  lemma OnuPathTruncation(index: nat)
    ensures index < 1000000 ==> OnuPathAsWritten(index) == OnuPath(index)
    ensures index >= 1000000 ==> OnuPathAsWritten(index) != OnuPath(index)
    ensures 1000000 <= index < 10000000 ==> OnuPathAsWritten(index) == OnuPath(index / 10)
  {
    assert Pow10(6) == 1000000;
    NatToStringLength(index, 6);
    if 1000000 <= index < 10000000 {
      assert Pow10(7) == 10000000;
      NatToStringLength(index, 7);
      NatToStringLength(index / 10, 6);
      var full := ONU_PATH + "." + NatToString(index);
      assert NatToString(index) == NatToString(index / 10) + [DigitChar(index % 10)];
      assert full[..15] == ONU_PATH + "." + NatToString(index / 10);
    }
  }

  /** A template in `ports` has no instance left after ResetTree. */
  lemma ResetTreeClears(tree: Tree, unis: set<string>, ports: set<string>, p: string)
    requires p in ports
    ensures InstanceKeys(ResetTree(tree, unis, ports), p) == {}
  {
    var t := ResetTree(tree, unis, ports);
    assert forall k :: k in t ==> !StartsWith(k, p + ".");
  }

  /** No UNI left after ResetTree has a Status starting with "Up". */
  lemma ResetTreeUnisDown(tree: Tree, unis: set<string>, ports: set<string>)
    ensures var t := ResetTree(tree, unis, ports);
            forall k :: (k in t && k in unis && STATUS_PARAM in t[k].params && t[k].params[STATUS_PARAM].VStr?) ==>
              !StartsWith(t[k].params[STATUS_PARAM].s, "Up")
  {
  }

  /** The GEM-port template of an ANI instance that the host lets go is
      cleared, unless it has no instance to begin with. */
  lemma PortClearedOrEmpty(host: Host, tree: Tree, onu: string, a: string)
    requires a in ChildInstances(tree, onu, "ANI")
    requires a + GEM_PORT_REL in tree && tree[a + GEM_PORT_REL].isTemplate && a + GEM_PORT_REL !in host.rejects
    ensures a + GEM_PORT_REL in ClearedPorts(host, tree, onu) || InstanceKeys(tree, a + GEM_PORT_REL) == {}
  {
    if InstanceCount(tree, a + GEM_PORT_REL) > 0 {
      assert InstancesCleared(host, tree, a + GEM_PORT_REL);
    }
  }

  /** A template without instances has none in a tree with fewer keys. */
  lemma NoInstancesInSubtree(tree: Tree, t: Tree, p: string)
    requires InstanceKeys(tree, p) == {}
    requires forall k :: k in t ==> k in tree
    ensures InstanceKeys(t, p) == {}
  {
    forall k | k in t ensures !IsInstanceKey(p, k) {
      assert k !in InstanceKeys(tree, p);
    }
  }

  /** After a reset of an existing ONU no EthernetUNI instance that is left
      has a Status starting with "Up". */
  lemma ResetMibUnisDown(env: Env, st: State, onu: string)
    requires onu in st.tree
    ensures var t := ResetMibAt(env, st, onu).tree;
            forall k ::
              (k in t && k in ChildInstances(st.tree, onu, "EthernetUNI")
               && STATUS_PARAM in t[k].params && t[k].params[STATUS_PARAM].VStr?) ==>
                !StartsWith(t[k].params[STATUS_PARAM].s, "Up")
  {
    ResetTreeUnisDown(st.tree, ChildInstances(st.tree, onu, "EthernetUNI"), ClearedPorts(env.host, st.tree, onu));
  }

  /** After a reset of an existing ONU every GEM-port template of an ANI
      instance whose ports the host lets go has no instance left. */
  lemma ResetMibClearsGemPorts(env: Env, st: State, onu: string, a: string)
    requires onu in st.tree
    requires a in ChildInstances(st.tree, onu, "ANI")
    requires a + GEM_PORT_REL in st.tree && st.tree[a + GEM_PORT_REL].isTemplate
    requires a + GEM_PORT_REL !in env.host.rejects
    ensures InstanceKeys(ResetMibAt(env, st, onu).tree, a + GEM_PORT_REL) == {}
  {
    var unis := ChildInstances(st.tree, onu, "EthernetUNI");
    var ports := ClearedPorts(env.host, st.tree, onu);
    PortClearedOrEmpty(env.host, st.tree, onu, a);
    if a + GEM_PORT_REL in ports {
      ResetTreeClears(st.tree, unis, ports, a + GEM_PORT_REL);
    } else {
      NoInstancesInSubtree(st.tree, ResetTree(st.tree, unis, ports), a + GEM_PORT_REL);
    }
  }
}
