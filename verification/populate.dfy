/** Populating the data model at start-up: a FIFO of discovery tasks handled
    one per timer tick, and a periodic sweep that asks the vendor module for
    the ONU instances during the first five minutes. The vendor module's
    answers are parameters of the model. */
module Populate {
  import opened Wrappers
  import opened Strs
  import opened DmInfo
  import opened Tree
  import opened Config
  import opened DmChange
  import DataModel

  /** The sweep runs every 10 s and stops after 30 rounds (5 minutes). */
  const QUERY_ONUS_INTERVAL_MS: nat := 10000
  const QUERY_ONUS_NR_TIMES: nat := 30

  /** A child path is built in a 256-byte buffer. */
  const CHILD_PATH_MAX: nat := 255

  // ---------------------------------------------------------------------
  // Tasks, vendor answers and the scheduler state
  // ---------------------------------------------------------------------

  /** task_type_t without the unused `none` value. */
  datatype TaskKind = QueryIndexes | QueryContent

  /** task_t: `index` is 0 for a QueryIndexes task and for a singleton. */
  datatype Task = Task(path: string, index: nat, kind: TaskKind)

  /** The part of a get_object_content() reply the plugin forwards. */
  datatype Content = Content(keys: Option<ArgTable>, parameters: Option<ArgTable>)

  /** The vendor module. `listOfInstances(path)` is the "indexes" string of
      get_list_of_instances(), None when the call fails, its reply is not an
      htable or lacks "indexes"; `objectContent(path, index)` is None when
      get_object_content() fails or its reply is not an htable. */
  datatype Vendor = Vendor(
    listOfInstances: string -> Option<string>,
    objectContent: (string, nat) -> Option<Content>)

  /** The module's static state: the data model, s_tasks, s_onu_initialised,
      s_cntr_query_onus, whether the task timer is armed and whether the
      sweep timer still runs. */
  datatype PState = PState(
    dm: State,
    queue: seq<Task>,
    onuInit: seq<bool>,
    cntr: nat,
    taskTimerArmed: bool,
    sweepRunning: bool)

  /** pplt_dm_init(): no tasks, no ONU initialised, the sweep started. */
  function Init(cfg: Config, dm: State): (r: PState)
    ensures |r.onuInit| == cfg.maxNrOfOnus && forall i :: 0 <= i < |r.onuInit| ==> !r.onuInit[i]
    ensures r.queue == [] && r.cntr == 0 && r.sweepRunning && !r.taskTimerArmed
  {
    PState(dm, [], seq(cfg.maxNrOfOnus, _ => false), 0, false, true)
  }

  /** ONU `index` (1-based) is marked initialised. */
  predicate OnuInitialised(onuInit: seq<bool>, index: nat) {
    1 <= index <= |onuInit| && onuInit[index - 1]
  }

  // ---------------------------------------------------------------------
  // query_indexes()
  // ---------------------------------------------------------------------

  /** Whether entry `e` of the index list asks for a new QueryContent task:
      it is numeric, and for XPON.ONU it lies in [1, MAX] and is not both
      present and initialised; for other templates the instance is absent. */
  predicate Wanted(cfg: Config, tree: Tree, onuInit: seq<bool>, path: string, e: string) {
    && IsNumeric(e)
    && var i := ParseNat(e);
       if path == ONU_PATH then
         && 1 <= i <= cfg.maxNrOfOnus
         && !(InstanceExists(tree, path, i) && OnuInitialised(onuInit, i))
       else
         !InstanceExists(tree, path, i)
  }

  /** The tasks for the entries of the split index list, in list order. */
  function EntryTasks(cfg: Config, tree: Tree, onuInit: seq<bool>, path: string, entries: seq<string>): (r: seq<Task>)
    ensures |r| <= |entries|
    ensures forall t :: t in r ==>
      t.path == path && t.kind == QueryContent &&
      exists e :: e in entries && Wanted(cfg, tree, onuInit, path, e) && t.index == ParseNat(e)
    ensures forall e :: e in entries && Wanted(cfg, tree, onuInit, path, e) ==>
      Task(path, ParseNat(e), QueryContent) in r
  {
    if |entries| == 0 then []
    else
      var rest := EntryTasks(cfg, tree, onuInit, path, entries[1..]);
      assert forall e :: e in entries[1..] ==> e in entries;
      assert forall e :: e in entries ==> e == entries[0] || e in entries[1..];
      if Wanted(cfg, tree, onuInit, path, entries[0]) then
        [Task(path, ParseNat(entries[0]), QueryContent)] + rest
      else
        rest
  }

  /** query_indexes(): the QueryContent tasks for the indexes the vendor
      module lists; it never changes the data model. */
  function QueryIndexesTasks(cfg: Config, v: Vendor, tree: Tree, onuInit: seq<bool>, path: string): (r: seq<Task>)
    ensures v.listOfInstances(path).None? || v.listOfInstances(path) == Some("") ==> r == []
    ensures forall t :: t in r ==> t.path == path && t.kind == QueryContent
    ensures path != ONU_PATH ==> forall t :: t in r ==> !InstanceExists(tree, path, t.index)
    ensures path == ONU_PATH ==> forall t :: t in r ==>
      1 <= t.index <= cfg.maxNrOfOnus && !(InstanceExists(tree, path, t.index) && OnuInitialised(onuInit, t.index))
    ensures (match v.listOfInstances(path)
             case None => true
             case Some(s) =>
               s != "" ==> forall e :: e in Split(s, ',') && Wanted(cfg, tree, onuInit, path, e) ==>
                 Task(path, ParseNat(e), QueryContent) in r)
  {
    match v.listOfInstances(path)
    case None => []
    case Some(s) =>
      if s == "" then [] else EntryTasks(cfg, tree, onuInit, path, Split(s, ','))
  }

  // ---------------------------------------------------------------------
  // query_children() and query_content()
  // ---------------------------------------------------------------------

  /** "%s.%d.%s" for an instance, "%s.%s" for a singleton, in 256 bytes. */
  function ChildPath(path: string, index: nat, child: string): string {
    Truncate(if index != 0 then InstPath(path, index) + "." + child else path + "." + child, CHILD_PATH_MAX)
  }

  /** One task of `kind` per child name, in catalog order. */
  function ChildTasks(path: string, index: nat, names: seq<string>, kind: TaskKind): (r: seq<Task>)
    ensures |r| == |names|
    ensures forall j :: 0 <= j < |r| ==> r[j].path == ChildPath(path, index, names[j])
    ensures forall j :: 0 <= j < |r| ==> r[j].index == 0 && r[j].kind == kind
  {
    if |names| == 0 then []
    else [Task(ChildPath(path, index, names[0]), 0, kind)] + ChildTasks(path, index, names[1..], kind)
  }

  /** query_children() for singletons, then for templates. */
  function Children(path: string, index: nat, id: nat): (r: seq<Task>)
    requires id < NBR
    ensures var info := OBJECT_INFO[id];
            && |r| == |info.singletons| + |info.templates|
            && (forall j :: 0 <= j < |info.singletons| ==>
                  r[j] == Task(ChildPath(path, index, info.singletons[j]), 0, QueryContent))
            && (forall j :: 0 <= j < |info.templates| ==>
                  r[|info.singletons| + j] == Task(ChildPath(path, index, info.templates[j]), 0, QueryIndexes))
  {
    var info := GetObjectInfo(id).value;
    ContentThenIndexes(path, index, info.singletons, info.templates)
  }

  /** Content queries for `singletons`, then index queries for `templates`. */
  function ContentThenIndexes(path: string, index: nat, singletons: seq<string>, templates: seq<string>): (r: seq<Task>)
    ensures |r| == |singletons| + |templates|
    ensures forall j :: 0 <= j < |singletons| ==> r[j] == Task(ChildPath(path, index, singletons[j]), 0, QueryContent)
    ensures forall j :: 0 <= j < |templates| ==>
      r[|singletons| + j] == Task(ChildPath(path, index, templates[j]), 0, QueryIndexes)
  {
    ChildTasks(path, index, singletons, QueryContent) + ChildTasks(path, index, templates, QueryIndexes)
  }

  /** An ANI instance yields three content queries (its TC singletons) and
      then two index queries (GEM ports and transceivers). */
  lemma AniFanOut(path: string, index: nat)
    ensures var r := Children(path, index, ANI);
            && |r| == 5
            && (forall j :: 0 <= j < 3 ==> r[j].kind == QueryContent && r[j].index == 0)
            && (forall j :: 3 <= j < 5 ==> r[j].kind == QueryIndexes && r[j].index == 0)
  {
    var info := OBJECT_INFO[ANI];
    assert |info.singletons| == 3 && |info.templates| == 2;
  }

  /** What handling one task produced: the new data model, the tasks to
      append and the new initialised flags. */
  datatype Handled = Handled(dm: State, added: seq<Task>, onuInit: seq<bool>)

  /** The ONU slot of `index` set, when 1 <= index <= MAX. */
  function MarkOnu(cfg: Config, onuInit: seq<bool>, index: nat): (r: seq<bool>)
    requires |onuInit| == cfg.maxNrOfOnus
    ensures |r| == |onuInit|
    ensures forall i :: 0 <= i < |r| ==> (r[i] <==> onuInit[i] || i == index - 1)
  {
    if 1 <= index <= cfg.maxNrOfOnus then onuInit[index - 1 := true] else onuInit
  }

  /** The tail of query_content() once the object is in the data model:
      children of a known object type, and the ONU slot. */
  function Expand(cfg: Config, dm: State, onuInit: seq<bool>, path: string, index: nat): (r: Handled)
    requires |onuInit| == cfg.maxNrOfOnus
    ensures r.dm == dm
    ensures GetObjectId(path) == UNKNOWN ==> r.added == [] && r.onuInit == onuInit
    ensures GetObjectId(path) < NBR ==> r.added == Children(path, index, GetObjectId(path))
    ensures GetObjectId(path) != ONU ==> r.onuInit == onuInit
    ensures GetObjectId(path) == ONU ==> r.onuInit == MarkOnu(cfg, onuInit, index)
  {
    var id := GetObjectId(path);
    if id == UNKNOWN then Handled(dm, [], onuInit)
    else
      var added := Children(path, index, id);
      if id == ONU then Handled(dm, added, MarkOnu(cfg, onuInit, index))
      else Handled(dm, added, onuInit)
  }

  /** The argument htable query_content() builds from the reply. */
  function ContentArgs(t: Task, c: Content): Args {
    Args(Some(t.path), if t.index != 0 then Some(t.index) else None, c.keys, c.parameters)
  }

  /** query_content(): fetch the object, add or change an instance (index
      non-zero) or change a singleton, then queue the children. A failed
      instance update abandons the branch; a failed singleton update does
      not. */
  function QueryContentStep(env: Env, v: Vendor, dm: State, onuInit: seq<bool>, t: Task): (r: Handled)
    requires env.cfg.Valid() && |onuInit| == env.cfg.maxNrOfOnus
    ensures v.objectContent(t.path, t.index).None? ==> r == Handled(dm, [], onuInit)
    ensures (v.objectContent(t.path, t.index).Some? && t.index != 0 &&
             !DataModel.AddOrChange(env, dm, ContentArgs(t, v.objectContent(t.path, t.index).value)).ok) ==>
      r.added == [] && r.onuInit == onuInit
    ensures (v.objectContent(t.path, t.index).Some? && t.index == 0 && GetObjectId(t.path) < NBR) ==>
      r.added == Children(t.path, 0, GetObjectId(t.path))
    ensures |r.onuInit| == |onuInit|
    ensures forall i :: 0 <= i < |onuInit| && r.onuInit[i] != onuInit[i] ==>
      && v.objectContent(t.path, t.index).Some?
      && GetObjectId(t.path) == ONU && t.index == i + 1
      && DataModel.AddOrChange(env, dm, ContentArgs(t, v.objectContent(t.path, t.index).value)).ok
      && !onuInit[i] && r.onuInit[i]
  {
    match v.objectContent(t.path, t.index)
    case None => Handled(dm, [], onuInit)
    case Some(c) =>
      var args := ContentArgs(t, c);
      if t.index != 0 then
        var o := DataModel.AddOrChange(env, dm, args);
        if !o.ok then Handled(o.st, [], onuInit)
        else Expand(env.cfg, o.st, onuInit, t.path, t.index)
      else
        var o := ChangeObject(env, dm, args);
        Expand(env.cfg, o.st, onuInit, t.path, 0)
  }

  // ---------------------------------------------------------------------
  // handle_task() and query_onu_instances()
  // ---------------------------------------------------------------------

  function HandleTask(env: Env, v: Vendor, dm: State, onuInit: seq<bool>, t: Task): (r: Handled)
    requires env.cfg.Valid() && |onuInit| == env.cfg.maxNrOfOnus
    ensures |r.onuInit| == |onuInit|
    ensures forall i :: 0 <= i < |onuInit| && onuInit[i] ==> r.onuInit[i]
    ensures t.kind == QueryIndexes ==> r.dm == dm && r.onuInit == onuInit
  {
    match t.kind
    case QueryIndexes =>
      Handled(dm, QueryIndexesTasks(env.cfg, v, dm.tree, onuInit, t.path), onuInit)
    case QueryContent =>
      QueryContentStep(env, v, dm, onuInit, t)
  }

  /** handle_task(): on a non-empty queue, handle the head, drop it (the
      tasks it created are already at the tail) and re-arm the timer iff
      tasks remain; on an empty queue do nothing. The timer is one-shot,
      so it is disarmed once it has fired. */
  function Tick(env: Env, v: Vendor, s: PState): (r: PState)
    requires env.cfg.Valid() && |s.onuInit| == env.cfg.maxNrOfOnus
    ensures |s.queue| == 0 ==> r == s.(taskTimerArmed := false)
    ensures |s.queue| > 0 ==> |r.queue| >= |s.queue| - 1 && r.queue[..|s.queue| - 1] == s.queue[1..]
    ensures r.taskTimerArmed <==> |r.queue| > 0
    ensures r.cntr == s.cntr && r.sweepRunning == s.sweepRunning
    ensures |r.onuInit| == |s.onuInit|
    ensures forall i :: 0 <= i < |s.onuInit| && s.onuInit[i] ==> r.onuInit[i]
  {
    if |s.queue| == 0 then s.(taskTimerArmed := false)
    else
      var h := HandleTask(env, v, s.dm, s.onuInit, s.queue[0]);
      var q := s.queue[1..] + h.added;
      assert q[..|s.queue| - 1] == s.queue[1..];
      PState(h.dm, q, h.onuInit, s.cntr, |q| > 0, s.sweepRunning)
  }

  /** All MAX slots are initialised. */
  predicate AllInitialised(onuInit: seq<bool>) {
    forall i :: 0 <= i < |onuInit| ==> onuInit[i]
  }

  /** What a sweep did: the new state, and whether it queried XPON.ONU. */
  datatype Swept = Swept(st: PState, queried: bool)

  /** query_onu_instances(): stop when every ONU is initialised; otherwise
      count the round and stop after 30; otherwise query the XPON.ONU
      indexes, append their tasks and arm the task timer if tasks wait. */
  function Sweep(env: Env, v: Vendor, s: PState): (r: Swept)
    requires env.cfg.Valid() && |s.onuInit| == env.cfg.maxNrOfOnus
    ensures AllInitialised(s.onuInit) ==> r == Swept(s.(sweepRunning := false), false)
    ensures r.queried <==> !AllInitialised(s.onuInit) && s.cntr < QUERY_ONUS_NR_TIMES
    ensures r.queried ==> r.st.cntr == s.cntr + 1 && r.st.cntr <= QUERY_ONUS_NR_TIMES && r.st.sweepRunning == s.sweepRunning
    ensures !r.queried ==> !r.st.sweepRunning && r.st.queue == s.queue
    ensures r.st.cntr >= s.cntr && r.st.dm == s.dm && r.st.onuInit == s.onuInit
    ensures |r.st.queue| >= |s.queue| && r.st.queue[..|s.queue|] == s.queue
    ensures r.st.taskTimerArmed <==> s.taskTimerArmed || (r.queried && |r.st.queue| > 0)
  {
    if AllInitialised(s.onuInit) then Swept(s.(sweepRunning := false), false)
    else if s.cntr + 1 > QUERY_ONUS_NR_TIMES then
      Swept(s.(cntr := s.cntr + 1, sweepRunning := false), false)
    else
      var added := QueryIndexesTasks(env.cfg, v, s.dm.tree, s.onuInit, ONU_PATH);
      var q := s.queue + added;
      assert q[..|s.queue|] == s.queue;
      Swept(s.(cntr := s.cntr + 1, queue := q, taskTimerArmed := s.taskTimerArmed || |q| > 0), true)
  }

  // ---------------------------------------------------------------------
  // Runs of several timer events
  // ---------------------------------------------------------------------

  /** The timer that fires: the task timer or the sweep timer. */
  datatype Event = TaskTimer | SweepTimer

  /** The state after a sequence of timer events and the number of
      XPON.ONU queries the sweeps issued; a stopped sweep timer no longer
      fires. */
  datatype RunResult = RunResult(st: PState, queries: nat)

  function Run(env: Env, v: Vendor, s: PState, evs: seq<Event>): (r: RunResult)
    requires env.cfg.Valid() && |s.onuInit| == env.cfg.maxNrOfOnus
    ensures |r.st.onuInit| == |s.onuInit|
    ensures forall i :: 0 <= i < |s.onuInit| && s.onuInit[i] ==> r.st.onuInit[i]
    decreases |evs|
  {
    if |evs| == 0 then RunResult(s, 0)
    else if evs[0] == TaskTimer then
      Run(env, v, Tick(env, v, s), evs[1..])
    else if !s.sweepRunning then
      Run(env, v, s, evs[1..])
    else
      var w := Sweep(env, v, s);
      var rest := Run(env, v, w.st, evs[1..]);
      RunResult(rest.st, rest.queries + if w.queried then 1 else 0)
  }

  /** Whatever the interleaving of timer events, the sweeps issue at most
      30 - cntr queries for XPON.ONU (at most 30 from start-up). */
  lemma {:induction false} AtMostThirtySweeps(env: Env, v: Vendor, s: PState, evs: seq<Event>)
    requires env.cfg.Valid() && |s.onuInit| == env.cfg.maxNrOfOnus
    ensures Run(env, v, s, evs).queries == 0 || s.cntr + Run(env, v, s, evs).queries <= QUERY_ONUS_NR_TIMES
    decreases |evs|
  {
    if |evs| == 0 {
    } else if evs[0] == TaskTimer {
      AtMostThirtySweeps(env, v, Tick(env, v, s), evs[1..]);
    } else if !s.sweepRunning {
      AtMostThirtySweeps(env, v, s, evs[1..]);
    } else {
      AtMostThirtySweeps(env, v, Sweep(env, v, s).st, evs[1..]);
    }
  }

  /** Ticks only: the state after `n` ticks and the tasks handled, in order. */
  datatype TickRun = TickRun(st: PState, handled: seq<Task>)

  function Ticks(env: Env, v: Vendor, s: PState, n: nat): (r: TickRun)
    requires env.cfg.Valid() && |s.onuInit| == env.cfg.maxNrOfOnus
    ensures |r.handled| <= n
    decreases n
  {
    if n == 0 then TickRun(s, [])
    else
      var rest := Ticks(env, v, Tick(env, v, s), n - 1);
      TickRun(rest.st, (if |s.queue| > 0 then [s.queue[0]] else []) + rest.handled)
  }

  /** FIFO: the first n ticks handle exactly the first n queued tasks, in
      queue order, whatever those tasks append. */
  lemma {:induction false} TicksHandleInOrder(env: Env, v: Vendor, s: PState, n: nat)
    requires env.cfg.Valid() && |s.onuInit| == env.cfg.maxNrOfOnus
    requires n <= |s.queue|
    ensures Ticks(env, v, s, n).handled == s.queue[..n]
    decreases n
  {
    if n > 0 {
      var s1 := Tick(env, v, s);
      TicksHandleInOrder(env, v, s1, n - 1);
      FifoStep(s.queue, s1.queue, n);
    }
  }

  /** The queue arithmetic of one tick: the head, followed by the first
      n - 1 tasks of a queue that starts with the old tail, are the first n
      tasks of the old queue. */
  lemma FifoStep(q: seq<Task>, q1: seq<Task>, n: nat)
    requires 0 < n <= |q| && |q1| >= |q| - 1 && q1[..|q| - 1] == q[1..]
    ensures [q[0]] + q1[..n - 1] == q[..n]
  {
    assert q1[..n - 1] == q1[..|q| - 1][..n - 1];
  }
}
