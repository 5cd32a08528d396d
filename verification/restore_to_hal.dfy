/** Deferred enabling of objects in the vendor module ("restore to HAL"):
    objects whose persisted Enable is set are queued, and a periodic tick
    sends set_enable(path, true) for each of them, holding an ONU back until
    it has an EthernetUNI and an ANI or has been checked often enough. */
module Rth {
  import opened Wrappers
  import opened Strs
  import opened DmInfo
  import opened Tree
  import opened PonCtrl

  const MAX_CHECKS_ON_NR_OF_UNIS_AND_ANIS: nat := 4
  /** Period of the tick while tasks remain. */
  const TICK_INTERVAL_MS: nat := 1000

  /** rth_task_t: object to enable and how often its UNIs/ANIs were counted. */
  datatype RthTask = RthTask(path: string, cntr: nat)

  /** Some pending task's path starts with `obj`. */
  predicate Covered(tasks: seq<RthTask>, obj: string) {
    exists i | 0 <= i < |tasks| :: StartsWith(tasks[i].path, obj)
  }

  /** Tasks after scheduling, and whether the tick timer was (re)started. */
  datatype Scheduled = Scheduled(tasks: seq<RthTask>, timerStarted: bool)

  /** rth_schedule_enable(): nothing when a pending task's path has `obj` as
      prefix, else append a fresh task and start the timer. */
  function Schedule(tasks: seq<RthTask>, obj: string): (r: Scheduled)
    ensures Covered(tasks, obj) ==> r == Scheduled(tasks, false)
    ensures !Covered(tasks, obj) ==> r.timerStarted && r.tasks == tasks + [RthTask(obj, 0)]
  {
    if Covered(tasks, obj) then Scheduled(tasks, false)
    else Scheduled(tasks + [RthTask(obj, 0)], true)
  }

  /** After scheduling, the object is covered, so scheduling it again
      changes nothing. */
  lemma ScheduleIdempotent(tasks: seq<RthTask>, obj: string)
    ensures Covered(Schedule(tasks, obj).tasks, obj)
    ensures Schedule(Schedule(tasks, obj).tasks, obj) == Scheduled(Schedule(tasks, obj).tasks, false)
  {
    var t := Schedule(tasks, obj).tasks;
    if !Covered(tasks, obj) {
      assert StartsWith(t[|tasks|].path, obj);
    }
  }

  /** Scheduling only appends, so whatever was covered stays covered. */
  lemma ScheduleKeepsCovered(tasks: seq<RthTask>, obj: string, o: string)
    requires Covered(tasks, o)
    ensures Covered(Schedule(tasks, obj).tasks, o)
  {
    var i :| 0 <= i < |tasks| && StartsWith(tasks[i].path, o);
    assert Schedule(tasks, obj).tasks[i] == tasks[i];
  }

  /** The prefix test runs one way only: a pending "XPON.ONU.10" suppresses
      scheduling "XPON.ONU.1", but not the other way round. */
  lemma SchedulePrefixQuirk()
    ensures Schedule([RthTask("XPON.ONU.10", 0)], "XPON.ONU.1").tasks == [RthTask("XPON.ONU.10", 0)]
    ensures Schedule([RthTask("XPON.ONU.1", 0)], "XPON.ONU.10").tasks == [RthTask("XPON.ONU.1", 0), RthTask("XPON.ONU.10", 0)]
  {
    assert StartsWith([RthTask("XPON.ONU.10", 0)][0].path, "XPON.ONU.1");
  }

  /** Position of the first task whose path equals `obj`. */
  function FirstMatch(tasks: seq<RthTask>, obj: string): (r: Option<nat>)
    ensures r.None? <==> forall i :: 0 <= i < |tasks| ==> tasks[i].path != obj
    ensures r.Some? ==> r.value < |tasks| && tasks[r.value].path == obj
    ensures r.Some? ==> forall j :: 0 <= j < r.value ==> tasks[j].path != obj
  {
    if |tasks| == 0 then None
    else if tasks[0].path == obj then Some(0)
    else
      var rest := FirstMatch(tasks[1..], obj);
      assert forall i :: 1 <= i < |tasks| ==> tasks[i] == tasks[1..][i - 1];
      match rest
      case None => None
      case Some(i) => Some(i + 1)
  }

  /** rth_disable(): removes the first task whose path equals `obj`, if any. */
  function Disable(tasks: seq<RthTask>, obj: string): (r: seq<RthTask>)
    ensures FirstMatch(tasks, obj).None? ==> r == tasks
    ensures FirstMatch(tasks, obj).Some? ==>
      var i := FirstMatch(tasks, obj).value;
      r == tasks[..i] + tasks[i + 1..]
  {
    if |tasks| == 0 then []
    else if tasks[0].path == obj then tasks[1..]
    else
      var rest := Disable(tasks[1..], obj);
      match FirstMatch(tasks[1..], obj)
      case None =>
        assert FirstMatch(tasks, obj).None?;
        assert [tasks[0]] + tasks[1..] == tasks;
        [tasks[0]] + rest
      case Some(i) =>
        assert FirstMatch(tasks, obj) == Some(i + 1);
        assert tasks[..i + 1] == [tasks[0]] + tasks[1..][..i];
        assert tasks[i + 2..] == tasks[1..][i + 1..];
        [tasks[0]] + rest
  }

  /** Disabling an object that was just scheduled, on a list that did not
      cover it, restores the list. */
  lemma DisableUndoesSchedule(tasks: seq<RthTask>, obj: string)
    requires !Covered(tasks, obj)
    ensures Disable(Schedule(tasks, obj).tasks, obj) == tasks
  {
    var t := Schedule(tasks, obj).tasks;
    forall j | 0 <= j < |tasks| ensures t[j].path != obj {
      assert t[j] == tasks[j];
    }
    assert t[|tasks|].path == obj;
    assert FirstMatch(t, obj) == Some(|tasks|);
    assert t[..|tasks|] == tasks;
  }

  // ---------------------------------------------------------------------
  // The tick
  // ---------------------------------------------------------------------

  /** dm_get_nr_of_ethernet_uni_instances(): instances of onu.EthernetUNI
      (the path is built in a 64-byte buffer). */
  function NrOfEthernetUnis(tree: Tree, onu: string): nat {
    InstanceCount(tree, Truncate(onu + ".EthernetUNI", 63))
  }

  /** dm_get_nr_of_ani_instances() */
  function NrOfAnis(tree: Tree, onu: string): nat {
    InstanceCount(tree, Truncate(onu + ".ANI", 63))
  }

  /** The tick applies (and drops) this task now. */
  predicate Ready(tree: Tree, t: RthTask) {
    || GetObjectId(t.path) != ONU
    || (NrOfEthernetUnis(tree, t.path) != 0 && NrOfAnis(tree, t.path) != 0)
    || t.cntr > MAX_CHECKS_ON_NR_OF_UNIS_AND_ANIS
  }

  function TaskPaths(tasks: seq<RthTask>): (r: seq<string>)
    ensures |r| == |tasks| && forall i :: 0 <= i < |tasks| ==> r[i] == tasks[i].path
  {
    seq(|tasks|, i requires 0 <= i < |tasks| => tasks[i].path)
  }

  function CallPaths(calls: seq<Call>): (r: seq<string>)
    ensures |r| == |calls| && forall i :: 0 <= i < |calls| ==> r[i] == Target(calls[i])
  {
    seq(|calls|, i requires 0 <= i < |calls| => Target(calls[i]))
  }

  /** A task after one more check. */
  function Bump(t: RthTask): RthTask {
    RthTask(t.path, t.cntr + 1)
  }

  /** Tasks kept by a tick and the requests it sends. */
  datatype Handled = Handled(kept: seq<RthTask>, calls: seq<Call>)

  /** The loop of handle_rth_tasks(), for a given readiness test: each
      ready task becomes one set_enable(path, true); every other task stays
      with its counter incremented. */
  function Sweep(tasks: seq<RthTask>, ready: RthTask -> bool): (r: Handled)
    ensures |r.calls| + |r.kept| == |tasks|
  {
    if |tasks| == 0 then Handled([], [])
    else
      var t := tasks[0];
      var rest := Sweep(tasks[1..], ready);
      if ready(t) then Handled(rest.kept, [SetEnable(t.path, true)] + rest.calls)
      else Handled([Bump(t)] + rest.kept, rest.calls)
  }

  /** Every task a tick drops was sent exactly once as set_enable(path, true):
      the paths of the requests and of the kept tasks together are the paths
      of the tasks before the tick. */
  lemma {:induction false} SweepPartition(tasks: seq<RthTask>, ready: RthTask -> bool)
    ensures var r := Sweep(tasks, ready);
            multiset(CallPaths(r.calls)) + multiset(TaskPaths(r.kept)) == multiset(TaskPaths(tasks))
  {
    if |tasks| > 0 {
      var t := tasks[0];
      var rest := Sweep(tasks[1..], ready);
      SweepPartition(tasks[1..], ready);
      TaskPathsCons(tasks);
      if ready(t) {
        SweepReadyHead(tasks, ready);
        CallPathsCons(SetEnable(t.path, true), rest.calls);
      } else {
        SweepWaitingHead(tasks, ready);
        TaskPathsCons(Sweep(tasks, ready).kept);
      }
    }
  }

  lemma TaskPathsCons(tasks: seq<RthTask>)
    requires |tasks| > 0
    ensures TaskPaths(tasks) == [tasks[0].path] + TaskPaths(tasks[1..])
  {
  }

  lemma CallPathsCons(c: Call, calls: seq<Call>)
    ensures CallPaths([c] + calls) == [Target(c)] + CallPaths(calls)
  {
  }

  /** A ready head task becomes the first request. */
  lemma SweepReadyHead(tasks: seq<RthTask>, ready: RthTask -> bool)
    requires |tasks| > 0 && ready(tasks[0])
    ensures Sweep(tasks, ready).calls == [SetEnable(tasks[0].path, true)] + Sweep(tasks[1..], ready).calls
    ensures Sweep(tasks, ready).kept == Sweep(tasks[1..], ready).kept
  {
  }

  /** A head task that is not ready is kept first, its counter incremented. */
  lemma SweepWaitingHead(tasks: seq<RthTask>, ready: RthTask -> bool)
    requires |tasks| > 0 && !ready(tasks[0])
    ensures Sweep(tasks, ready).kept == [Bump(tasks[0])] + Sweep(tasks[1..], ready).kept
    ensures Sweep(tasks, ready).calls == Sweep(tasks[1..], ready).calls
  {
  }

  /** A tick sends set_enable for exactly the ready tasks and keeps exactly
      the others, each with its counter incremented. */
  lemma {:induction false} SweepSelects(tasks: seq<RthTask>, ready: RthTask -> bool)
    ensures var r := Sweep(tasks, ready);
            && (forall j :: 0 <= j < |tasks| && ready(tasks[j]) ==> SetEnable(tasks[j].path, true) in r.calls)
            && (forall j :: 0 <= j < |tasks| && !ready(tasks[j]) ==> Bump(tasks[j]) in r.kept)
  {
    if |tasks| > 0 {
      SweepSelects(tasks[1..], ready);
      var r := Sweep(tasks, ready);
      var rest := Sweep(tasks[1..], ready);
      if ready(tasks[0]) {
        SweepReadyHead(tasks, ready);
      } else {
        SweepWaitingHead(tasks, ready);
      }
      forall j | 1 <= j < |tasks|
        ensures ready(tasks[j]) ==> SetEnable(tasks[j].path, true) in r.calls
        ensures !ready(tasks[j]) ==> Bump(tasks[j]) in r.kept
      {
        assert tasks[j] == tasks[1..][j - 1];
      }
    }
  }

  /** `k` is a task of `tasks` that was not ready, with its counter
      incremented. */
  predicate KeptFrom(tasks: seq<RthTask>, ready: RthTask -> bool, k: RthTask) {
    exists j :: 0 <= j < |tasks| && !ready(tasks[j]) && k == Bump(tasks[j])
  }

  /** Every kept task is a task that was not ready, with its counter
      incremented. */
  lemma {:induction false} SweepKeepsOnlyWaiting(tasks: seq<RthTask>, ready: RthTask -> bool)
    ensures var r := Sweep(tasks, ready);
            forall i :: 0 <= i < |r.kept| ==> KeptFrom(tasks, ready, r.kept[i])
  {
    if |tasks| > 0 {
      SweepKeepsOnlyWaiting(tasks[1..], ready);
      var r := Sweep(tasks, ready);
      var rest := Sweep(tasks[1..], ready);
      if ready(tasks[0]) {
        SweepReadyHead(tasks, ready);
        forall i | 0 <= i < |r.kept|
          ensures KeptFrom(tasks, ready, r.kept[i])
        {
          KeptFromTail(tasks, ready, rest.kept[i]);
        }
      } else {
        SweepWaitingHead(tasks, ready);
        forall i | 0 <= i < |r.kept|
          ensures KeptFrom(tasks, ready, r.kept[i])
        {
          if i == 0 {
            assert r.kept[0] == Bump(tasks[0]);
          } else {
            assert r.kept[i] == rest.kept[i - 1];
            KeptFromTail(tasks, ready, rest.kept[i - 1]);
          }
        }
      }
    }
  }

  lemma KeptFromTail(tasks: seq<RthTask>, ready: RthTask -> bool, k: RthTask)
    requires |tasks| > 0
    requires KeptFrom(tasks[1..], ready, k)
    ensures KeptFrom(tasks, ready, k)
  {
    var j :| 0 <= j < |tasks[1..]| && !ready(tasks[1..][j]) && k == Bump(tasks[1..][j]);
    assert tasks[j + 1] == tasks[1..][j];
  }

  /** The readiness test of a tick on the current tree. */
  function ReadyIn(tree: Tree): RthTask -> bool {
    t => Ready(tree, t)
  }

  /** Outcome of one tick: remaining tasks, requests sent, and whether the
      timer is restarted (with TICK_INTERVAL_MS). */
  datatype TickResult = TickResult(tasks: seq<RthTask>, calls: seq<Call>, rearm: bool)

  /** handle_rth_tasks(): does nothing on an empty list; otherwise handles
      every task and re-arms the timer iff tasks remain. */
  function Tick(tasks: seq<RthTask>, ready: RthTask -> bool): (r: TickResult)
    ensures |tasks| == 0 ==> r == TickResult([], [], false)
    ensures r.rearm <==> |r.tasks| > 0
    ensures |tasks| > 0 ==> r.tasks == Sweep(tasks, ready).kept && r.calls == Sweep(tasks, ready).calls
  {
    if |tasks| == 0 then TickResult([], [], false)
    else
      var h := Sweep(tasks, ready);
      TickResult(h.kept, h.calls, |h.kept| > 0)
  }

  /** `n` consecutive ticks on an unchanged tree: remaining tasks and all
      requests sent, in order. */
  function Ticks(tasks: seq<RthTask>, ready: RthTask -> bool, n: nat): Handled
    decreases n
  {
    if n == 0 then Handled(tasks, [])
    else
      var r := Tick(tasks, ready);
      var more := Ticks(r.tasks, ready, n - 1);
      Handled(more.kept, r.calls + more.calls)
  }

  /** A lone task that stays unready for its first n checks is kept by n
      ticks, with nothing sent. */
  lemma {:induction false} HeldBack(ready: RthTask -> bool, path: string, n: nat)
    requires forall c: nat :: c < n ==> !ready(RthTask(path, c))
    ensures Ticks([RthTask(path, 0)], ready, n) == Handled([RthTask(path, n)], [])
  {
    if n > 0 {
      HeldBack(ready, path, n - 1);
      TicksSplit([RthTask(path, 0)], ready, n - 1);
      var t := RthTask(path, n - 1);
      SweepWaitingHead([t], ready);
      var b := Tick([t], ready);
      assert b == TickResult([RthTask(path, n)], [], true);
      var a := Ticks([RthTask(path, 0)], ready, n - 1);
      assert a.calls + b.calls == [];
    }
  }

  /** An ONU lacking an EthernetUNI or an ANI is held back for five ticks... */
  lemma OnuHeldBack(tree: Tree, onu: string, n: nat)
    requires GetObjectId(onu) == ONU
    requires NrOfEthernetUnis(tree, onu) == 0 || NrOfAnis(tree, onu) == 0
    requires n <= MAX_CHECKS_ON_NR_OF_UNIS_AND_ANIS + 1
    ensures Ticks([RthTask(onu, 0)], ReadyIn(tree), n) == Handled([RthTask(onu, n)], [])
  {
    forall c: nat | c < n ensures !ReadyIn(tree)(RthTask(onu, c)) {
      assert !Ready(tree, RthTask(onu, c));
    }
    HeldBack(ReadyIn(tree), onu, n);
  }

  /** ...and enabled on the sixth. */
  lemma OnuEnabledOnSixthTick(tree: Tree, onu: string)
    requires GetObjectId(onu) == ONU
    requires NrOfEthernetUnis(tree, onu) == 0 || NrOfAnis(tree, onu) == 0
    ensures Ticks([RthTask(onu, 0)], ReadyIn(tree), 6) == Handled([], [SetEnable(onu, true)])
  {
    OnuHeldBack(tree, onu, 5);
    TicksSplit([RthTask(onu, 0)], ReadyIn(tree), 5);
    assert ReadyIn(tree)(RthTask(onu, 5));
    SweepReadyHead([RthTask(onu, 5)], ReadyIn(tree));
  }

  /** n + 1 ticks are n ticks followed by one. */
  lemma {:induction false} TicksSplit(tasks: seq<RthTask>, ready: RthTask -> bool, n: nat)
    decreases n
    ensures var a := Ticks(tasks, ready, n);
            var b := Tick(a.kept, ready);
            Ticks(tasks, ready, n + 1) == Handled(b.tasks, a.calls + b.calls)
  {
    if n > 0 {
      var r := Tick(tasks, ready);
      TicksSplit(r.tasks, ready, n - 1);
      var a' := Ticks(r.tasks, ready, n - 1);
      var b := Tick(a'.kept, ready);
      assert Ticks(tasks, ready, n) == Handled(a'.kept, r.calls + a'.calls);
      assert Ticks(r.tasks, ready, n) == Handled(b.tasks, a'.calls + b.calls);
      assert r.calls + (a'.calls + b.calls) == (r.calls + a'.calls) + b.calls;
    }
  }

  /** A task that is not an ONU is applied on the first tick. */
  lemma NonOnuAppliedAtOnce(tree: Tree, path: string, cntr: nat)
    requires GetObjectId(path) != ONU
    ensures Tick([RthTask(path, cntr)], ReadyIn(tree)) == TickResult([], [SetEnable(path, true)], false)
  {
    assert ReadyIn(tree)(RthTask(path, cntr));
    SweepReadyHead([RthTask(path, cntr)], ReadyIn(tree));
  }
}
