/** Custom action handlers the host calls on reads, validations and object
    destruction: the read of a volatile Transceiver parameter, the read of
    LastChange, the release of private data, and the Password validator.
    The uptime and the vendor module's reply are parameters. */
module DmActions {
  import opened Wrappers
  import opened Strs
  import opened Tree
  import opened Config
  import opened Ani
  import opened IntfPriv
  import Password

  /** The amxd_status_t values the handlers return. */
  datatype Status =
    | Ok
    | UnknownError
    | InvalidFunctionArgument
    | InvalidAction
    | InvalidValue
    | FunctionNotImplemented

  /** The reason the host passes to an action handler. */
  datatype Reason = ParamRead | ParamValidate | ObjectDestroy | OtherReason

  // ---------------------------------------------------------------------
  // _read_trx_param()
  // ---------------------------------------------------------------------

  /** The vendor module's answer to get_param_values(): the call failed, it
      answered without a value for the parameter, or it gave a value. */
  datatype Reply = CallFailed | NoValue | Answer(v: Value)

  /** Status, the value left in `retval` (None when the default read did
      not run), and whether the vendor module was asked. */
  datatype ReadResult = ReadResult(status: Status, value: Option<Value>, queried: bool)

  /** The default read (amxd_action_param_read) of an existing parameter. */
  predicate Readable(tree: Tree, path: string, name: string) {
    path in tree && name in tree[path].params
  }

  /** _read_trx_param() as written: after the default read it returns the
      stored value while param reads are ignored or for a template; it
      otherwise asks the vendor module, but both failure paths leave the
      status of the default read (ok) in place. */
  function ReadTrxParamAsWritten(ignoreReads: bool, tree: Tree, path: string, name: string, reply: Reply): (r: ReadResult)
    ensures !Readable(tree, path, name) ==> r == ReadResult(InvalidFunctionArgument, None, false)
    ensures Readable(tree, path, name) ==> r.status == Ok
    ensures Readable(tree, path, name) && (ignoreReads || tree[path].isTemplate) ==>
      r == ReadResult(Ok, Some(tree[path].params[name]), false)
    ensures Readable(tree, path, name) && !ignoreReads && !tree[path].isTemplate ==>
      && r.queried
      && r.value == Some(if reply.Answer? then reply.v else tree[path].params[name])
  {
    if !Readable(tree, path, name) then ReadResult(InvalidFunctionArgument, None, false)
    else
      var stored := tree[path].params[name];
      if ignoreReads || tree[path].isTemplate then ReadResult(Ok, Some(stored), false)
      else
        match reply
        case CallFailed => ReadResult(Ok, Some(stored), true)
        case NoValue => ReadResult(Ok, Some(stored), true)
        case Answer(v) => ReadResult(Ok, Some(v), true)
  }

  /** _read_trx_param() with the evidently intended status: a failed query
      or a reply without the value is reported as an error. */
  function ReadTrxParam(ignoreReads: bool, tree: Tree, path: string, name: string, reply: Reply): (r: ReadResult)
    ensures !Readable(tree, path, name) ==> r == ReadResult(InvalidFunctionArgument, None, false)
    ensures Readable(tree, path, name) && (ignoreReads || tree[path].isTemplate) ==>
      r == ReadResult(Ok, Some(tree[path].params[name]), false)
    ensures Readable(tree, path, name) && !ignoreReads && !tree[path].isTemplate ==>
      && r.queried
      && (r.status == Ok <==> reply.Answer?)
      && (reply.Answer? ==> r.value == Some(reply.v))
  {
    if !Readable(tree, path, name) then ReadResult(InvalidFunctionArgument, None, false)
    else
      var stored := tree[path].params[name];
      if ignoreReads || tree[path].isTemplate then ReadResult(Ok, Some(stored), false)
      else
        match reply
        case CallFailed => ReadResult(UnknownError, Some(stored), true)
        case NoValue => ReadResult(UnknownError, Some(stored), true)
        case Answer(v) => ReadResult(Ok, Some(v), true)
  }

  /** The two agree except when the vendor module fails: then the code as
      written reports success with the stale stored value. */
  lemma ReadTrxParamHidesFailure(tree: Tree, path: string, name: string, reply: Reply)
    requires Readable(tree, path, name) && !tree[path].isTemplate
    ensures !reply.Answer? ==>
      && ReadTrxParamAsWritten(false, tree, path, name, reply) == ReadResult(Ok, Some(tree[path].params[name]), true)
      && ReadTrxParam(false, tree, path, name, reply).status != Ok
    ensures reply.Answer? ==>
      ReadTrxParamAsWritten(false, tree, path, name, reply) == ReadTrxParam(false, tree, path, name, reply)
  {
  }

  /** A concrete input: a Transceiver instance whose RxPower is stored as
      0 and a vendor module that fails. */
  lemma ReadTrxParamFailureExample()
    ensures var tree := map["XPON.ONU.1.ANI.1.Transceiver.1" := Node(map["RxPower" := VI32(0)], None, false)];
            && ReadTrxParamAsWritten(false, tree, "XPON.ONU.1.ANI.1.Transceiver.1", "RxPower", CallFailed).status == Ok
            && ReadTrxParam(false, tree, "XPON.ONU.1.ANI.1.Transceiver.1", "RxPower", CallFailed).status == UnknownError
  {
    var tree := map["XPON.ONU.1.ANI.1.Transceiver.1" := Node(map["RxPower" := VI32(0)], None, false)];
    assert Readable(tree, "XPON.ONU.1.ANI.1.Transceiver.1", "RxPower");
  }

  // ---------------------------------------------------------------------
  // _lastchange_on_read()
  // ---------------------------------------------------------------------

  /** Status and the value written to `retval` (None when it is not set). */
  datatype LastChangeRead = LastChangeRead(status: Status, value: Option<nat>)

  /** _lastchange_on_read(): for a read of an object with interface private
      data, the seconds since its last Status change; 0 with an error when
      the object is missing, has no private data yet, or the uptime lies
      before the stamp; no value for a reason other than a read. */
  function LastChangeOnRead(reason: Reason, tree: Tree, path: string, uptime: nat): (r: LastChangeRead)
    ensures reason != ParamRead ==> r == LastChangeRead(InvalidAction, None)
    ensures reason == ParamRead ==> r.value.Some?
    ensures r.status == Ok <==>
      reason == ParamRead && HasIntfPriv(tree, path) && tree[path].priv.value.lastChange <= uptime
    ensures r.status == Ok ==> r.value.value + tree[path].priv.value.lastChange == uptime
    ensures reason == ParamRead && r.status != Ok ==> r == LastChangeRead(UnknownError, Some(0))
  {
    if reason != ParamRead then LastChangeRead(InvalidAction, None)
    else if !HasIntfPriv(tree, path) then LastChangeRead(UnknownError, Some(0))
    else
      var lc := tree[path].priv.value.lastChange;
      if uptime < lc then LastChangeRead(UnknownError, Some(0))
      else LastChangeRead(Ok, Some(uptime - lc))
  }

  /** Attaching private data when an instance is added makes LastChange
      count from that moment. */
  lemma LastChangeAfterAttach(tree: Tree, templ: string, index: nat, u0: nat, u: nat)
    requires InstanceExists(tree, templ, index) && u0 <= u
    ensures LastChangeOnRead(ParamRead, Attach(tree, templ, index, u0), InstPath(templ, index), u)
            == LastChangeRead(Ok, Some(u - u0))
  {
    var t := Attach(tree, templ, index, u0);
    assert HasIntfPriv(t, InstPath(templ, index));
  }

  /** After a Status change at uptime u0, LastChange read at u >= u0 is
      u - u0; without private data the read reports an error and 0. */
  lemma LastChangeAfterStatusChange(tree: Tree, path: string, u0: nat, u: nat)
    requires u0 <= u
    ensures HasIntfPriv(tree, path) ==>
      LastChangeOnRead(ParamRead, UpdateLastChange(tree, path, u0), path, u) == LastChangeRead(Ok, Some(u - u0))
    ensures !HasIntfPriv(tree, path) ==>
      LastChangeOnRead(ParamRead, UpdateLastChange(tree, path, u0), path, u) == LastChangeRead(UnknownError, Some(0))
  {
  }

  // ---------------------------------------------------------------------
  // object_destroyed_common()
  // ---------------------------------------------------------------------

  datatype Destroyed = Destroyed(status: Status, tree: Tree)

  /** object_destroyed_common(): on a destroy, release the private data of
      the object (ONU or interface alike); an object without private data,
      or another reason, is reported as an error and changes nothing. */
  function ObjectDestroyed(reason: Reason, tree: Tree, path: string): (r: Destroyed)
    ensures r.tree.Keys == tree.Keys
    ensures r.status == Ok <==> reason == ObjectDestroy && path in tree && tree[path].priv.Some?
    ensures reason != ObjectDestroy ==> r == Destroyed(InvalidAction, tree)
    ensures r.status != Ok ==> r.tree == tree
    ensures r.status == Ok ==>
      && r.tree[path] == tree[path].(priv := None)
      && forall o :: o in tree && o != path ==> r.tree[o] == tree[o]
  {
    if reason != ObjectDestroy then Destroyed(InvalidAction, tree)
    else if path !in tree || tree[path].priv.None? then Destroyed(UnknownError, tree)
    else Destroyed(Ok, tree[path := tree[path].(priv := None)])
  }

  /** Destroying twice: the second call finds no private data. */
  lemma ObjectDestroyedOnce(tree: Tree, path: string)
    requires ObjectDestroyed(ObjectDestroy, tree, path).status == Ok
    ensures var t := ObjectDestroyed(ObjectDestroy, tree, path).tree;
            ObjectDestroyed(ObjectDestroy, t, path) == Destroyed(UnknownError, t)
  {
  }

  // ---------------------------------------------------------------------
  // _check_password()
  // ---------------------------------------------------------------------

  /** _check_password(): only validation is implemented; a value that is
      not a string is an error; the empty password is always accepted;
      otherwise the object path must contain ".TC.Authentication" and the
      password must pass the check for the ANI it belongs to. */
  function CheckPasswordAction(cfg: Config, reason: Reason, tree: Tree, path: string, pw: Option<string>): (r: Status)
    ensures reason != ParamValidate ==> r == FunctionNotImplemented
    ensures reason == ParamValidate && pw.None? ==> r == UnknownError
    ensures reason == ParamValidate && pw == Some("") ==> r == Ok
    ensures reason == ParamValidate && pw.Some? && pw.value != "" ==>
      && (!Strip(path).ok ==> r == UnknownError)
      && (Strip(path).ok ==> (r == Ok <==> Password.CheckPassword(cfg, tree, Strip(path).path, pw.value)))
      && (Strip(path).ok && r != Ok ==> r == InvalidValue)
  {
    if reason != ParamValidate then FunctionNotImplemented
    else if pw.None? then UnknownError
    else if pw.value == "" then Ok
    else
      var s := Strip(path);
      if !s.ok then UnknownError
      else if !Password.CheckPassword(cfg, tree, s.path, pw.value) then InvalidValue
      else Ok
  }

  /** The validator on the TC.Authentication object of an ANI accepts a
      password exactly when it is empty or passes the check for that ANI. */
  lemma CheckPasswordOnAuthentication(cfg: Config, tree: Tree, ani: string, pw: string)
    requires !Contains(ani, DOT_TC_AUTHENTICATION)
    ensures CheckPasswordAction(cfg, ParamValidate, tree, Append(ani), Some(pw)) == Ok <==>
      pw == "" || Password.CheckPassword(cfg, tree, ani, pw)
  {
    StripAppend(ani);
  }
}
