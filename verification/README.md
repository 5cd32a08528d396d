# TR-181 XPON manager plugin: a Dafny model of its core

The tr181-xpon plugin exposes the TR-181 `XPON` object tree of a gateway
with PON (passive optical network) interfaces. A vendor module talks to the
hardware. It reports ONU, EthernetUNI, ANI, GEM port and Transceiver
instances to the plugin. The plugin then creates, changes and removes those
instances in the host data model through transactions. In the other
direction, it forwards user changes (Enable, Password) to the vendor module.

This project models that core as pure functions over immutable state:

- `DmInfo` is the static catalog of object types (`OBJECT_INFO`). It maps an
  instance path to its generic path and its object id.
- `Tree` is the part of the host object tree the plugin observes: objects,
  parameters, private data, templates and instances.
- `DmChange` and `DataModel` are the transactions the vendor module
  drives: add, remove, change, add-or-change, and the OMCI MIB reset. They
  include argument checking and the restore of persisted Enable flags.
- `Rth` is the deferred "restore to HAL" enable queue and its tick.
- `Populate` is the start-up discovery: a FIFO of query tasks handled one
  per tick, plus the periodic sweep for ONU instances.
- `FileUtils`, `Persistency` and `UpgradePersistency` cover the marker
  files of reboot-persistent Enable flags and the upgrade-persistent ANI
  passwords. They run over an abstract file system whose I/O faults are
  parameters.
- `Ani` and `Password` hold the TC.Authentication path conversions and the
  password checks, set and restore.
- `DmEvents` holds the event handlers (Enable changed, Password changed).
- `DmActions` holds the action handlers (Transceiver reads, LastChange,
  object destruction, password validation).
- `IntfPriv` is the interface private data.

The vendor module, the host's transaction engine, the clock and the file
system are not modelled as code. They appear as parameters:

- `Vendor` gives the vendor module's replies.
- `Host.rejects` lists the objects whose transactions the host refuses.
- `uptime` is the clock reading.
- `IoFaults` and the `fails` flag of `Persistency.Enable` say which file operations fail. The `unreadable` set (in `IoFaults` and in `Env`) lists the files whose fopen or fgets fails. The `undeletable` set in `IoFaults` lists the files whose unlink fails; the code ignores that result.
- Requests sent to the vendor module are collected as a `seq<Call>` log.

A deferred ONU enable with no EthernetUNI or ANI instances is sent on the
sixth tick: `restore_to_hal.c` checks `cntr >
MAX_CHECKS_ON_NR_OF_UNIS_AND_ANIS` (4), which first holds at the sixth
check (`Rth.OnuEnabledOnSixthTick`).

## Model

| member | source | states |
|---|---|---|
| DmInfo.InfoInit | src/dm_info.c:297-307 | initialisation accepts a table exactly when every entry's id equals its position |
| DmInfo.ShippedTableIsConsistent | src/dm_info.c:171-285 | the shipped catalog passes that check (entry i has id i); its ids are the object types 0..9 in the declaration order of include_priv/dm_info.h, the unknown id is their number, and NAME_PARAM_LEN is the length of "Name" |
| DmInfo.GetObjectInfo | src/dm_info.c:410-417 | an entry is returned exactly for a valid id, and it carries that id |
| DmInfo.GetObjectParamInfo | src/dm_info.c:429-439 | the parameter list exists exactly for a valid id and is that entry's list |
| DmInfo.LookupParam | src/data_model.c:430-494 | a type is found exactly when some catalog parameter has that exact name, and it is that parameter's type |
| DmInfo.ToGeneric | src/dm_info.c:320-366 | conversion fails exactly for the empty path |
| DmInfo.ToGenericSegments | src/dm_info.c:320-366 | the generic path's segments are the path's segments with the trailing index dropped and every other index replaced by "x" |
| DmInfo.ToGenericFixedPoint | src/dm_info.c:320-366 | a non-empty path without all-digit segments is its own generic path |
| DmInfo.ToGenericIdempotent | src/dm_info.c:320-366 | converting a generic path again changes nothing |
| DmInfo.FindGenericPath | src/dm_info.c:380-408 | the search returns the first catalog entry from i whose generic path matches, or the count when none does |
| DmInfo.GetObjectId | src/dm_info.c:380-408 | the id is UNKNOWN exactly when conversion fails or no catalog entry matches; otherwise that entry's generic path is the path's generic form |
| DmInfo.CatalogPathsDistinct | src/dm_info.c:171-285 | no two catalog entries share a generic path |
| DmInfo.ClassifyUnique | src/dm_info.c:380-408 | a path whose generic form is entry i's generic path is classified as i |
| DmInfo.CatalogPathsHaveNoDigits | src/dm_info.c:171-285 | no catalog generic path contains a digit |
| DmInfo.ClassifyCatalogPath | src/dm_info.c:380-408 | each catalog generic path classifies as its own entry |
| DmInfo.ClassifyInstanceLikeTemplate | src/dm_info.c:320-408 | an instance path classifies like its template path |
| DmInfo.ClassifyInstancePath | src/dm_info.c:320-408 | an instance of a catalog template classifies as that template's entry |
| DmInfo.SubObjectsMatchCatalog | src/dm_info.c:171-285 | every sub-object of an instance is a catalog entry directly below it, and it is a template exactly when the entry has a key |
| Tree.InstPathInjective | src/populate_dm_startup.c:318 | different indexes give different instance paths |
| Tree.InstPathIsInstanceKey | src/data_model.c:1141-1158 | the path built for an index is recognised as an instance of the template |
| Tree.InstanceKeyIsInstPath | src/data_model.c:1141-1158 | every recognised instance path is the path built from its parsed index |
| Tree.InstanceKeys | src/data_model.c:1166-1180 | exactly the existing objects that are instances of the template |
| Tree.InstanceCount | src/data_model.c:1166-1180 | the count is non-zero only for an existing template, and for one it is zero exactly when there are no instances |
| Tree.InstanceExists | src/data_model.c:1141-1158 | an instance is reported exactly when the template exists and the instance is one of its existing instances |
| Tree.RemoveSubtree | src/data_model.c:695-750 | deleting an instance removes exactly the objects at or below it and leaves the rest unchanged |
| Tree.RemoveSubtreeIdempotent | src/data_model.c:695-750 | deleting the same subtree twice is deleting it once |
| Strs.Truncate | src/populate_dm_startup.c:318-320 | snprintf output is the longest prefix that fits the buffer |
| Strs.TrimRight | src/dm_events.c:91-93 | trimming keeps a prefix that does not end in the trimmed character and drops only that character |
| Rth.Schedule | src/restore_to_hal.c:256-279 | nothing changes when a pending task's path starts with the object; otherwise a task with counter 0 is appended and the timer started |
| Rth.ScheduleIdempotent | src/restore_to_hal.c:256-279 | after scheduling the object is covered, and scheduling it again changes nothing |
| Rth.ScheduleKeepsCovered | src/restore_to_hal.c:256-279 | scheduling never uncovers another object |
| Rth.SchedulePrefixQuirk | src/restore_to_hal.c:267 | the prefix test is one-sided: a pending XPON.ONU.10 suppresses XPON.ONU.1, but not the reverse |
| Rth.Disable | src/restore_to_hal.c:286-301 | only the first task with exactly that path is removed, and the others keep their order |
| Rth.DisableUndoesSchedule | src/restore_to_hal.c:256-301 | disabling an object just scheduled on a list that did not cover it restores the list |
| Rth.Sweep | src/restore_to_hal.c:177-223 | every task is either sent or kept |
| Rth.SweepPartition | src/restore_to_hal.c:177-223 | the paths sent plus the paths kept are, as a multiset, exactly the paths before the tick |
| Rth.SweepSelects | src/restore_to_hal.c:177-223 | with `Ready` the test of src/restore_to_hal.c:196-210 (not an ONU, an ONU with both EthernetUNI and ANI instances, or cntr above MAX_CHECKS_ON_NR_OF_UNIS_AND_ANIS), every ready task is sent as set_enable(path, true), and every waiting task is kept with its counter incremented |
| Rth.SweepKeepsOnlyWaiting | src/restore_to_hal.c:177-223 | each kept task comes from a task that was not ready |
| Rth.Tick | src/restore_to_hal.c:177-223 | an empty list does nothing; otherwise the tick keeps the waiting tasks, and the timer is re-armed exactly when tasks remain |
| Rth.HeldBack | src/restore_to_hal.c:177-223 | a lone task that is not ready for its first n checks is still pending after n ticks and nothing was sent |
| Rth.OnuHeldBack | src/restore_to_hal.c:88-223 | an ONU without EthernetUNI or ANI instances is held back for up to five ticks |
| Rth.OnuEnabledOnSixthTick | src/restore_to_hal.c:88-223 | such an ONU is enabled on the sixth tick, and the list is then empty |
| Rth.TicksSplit | src/restore_to_hal.c:177-223 | n + 1 ticks are n ticks followed by one |
| Rth.NonOnuAppliedAtOnce | src/restore_to_hal.c:177-223 | an object other than an ONU is enabled on the first tick |
| FileUtils.FirstLine | src/file_utils.c:212-227 | fgets keeps a prefix of at most cap - 1 characters that stops at the first newline |
| FileUtils.FirstLineOfLine | src/file_utils.c:212-227 | a short line without a newline is read back whole |
| FileUtils.ReadFirstLine | src/file_utils.c:212-227 | reading fails exactly for a missing, unreadable (fopen or fgets fails) or empty file; otherwise the result is the file's first line, non-empty and shorter than the buffer |
| FileUtils.CheckFileHasValue | src/file_utils.c:114-138 | the answer is unknown exactly when the first line cannot be read (the file is missing, unreadable or empty), and true only when the first line is the value |
| FileUtils.CheckFileHasOwnValue | src/file_utils.c:114-138 | a readable file holding exactly a short value is recognised as holding it |
| FileUtils.RenameFile | src/file_utils.c:86-102 | success needs the source to exist and both the rename and the re-open to work; only the two paths change |
| FileUtils.TmpName | src/file_utils.c:176 | the temporary name is path.tmp, truncated to 255 characters |
| FileUtils.WriteFile | src/file_utils.c:154-200 | a value too long for the buffer is refused; success leaves the value in the file; only the file and its temporary file change |
| FileUtils.WriteFileTmpFailureKeepsTarget | src/file_utils.c:154-200 | a failure while writing the temporary file reports false and leaves the target as it was |
| FileUtils.WriteFileSucceeds | src/file_utils.c:154-200 | a fault-free write of a short value succeeds and leaves exactly the value |
| FileUtils.WriteFileFailsAfterRename | src/file_utils.c:86-102 | a false result can follow a successful rename, with the new value already in place |
| FileUtils.WriteFileIgnoresSync | src/file_utils.c:154-200 | a failing fsync does not change the outcome of a write |
| FileUtils.WriteThenRead | src/file_utils.c:154-227 | after a successful write, reading the first line of the readable file gives the value back |
| Persistency.EnabledFilePathInjective | src/persistency.c:234-240 | different objects have different marker files |
| Persistency.TouchFile | src/persistency.c:219-232 | an existing file is kept; otherwise the file exists afterwards unless its creation fails; nothing else changes |
| Persistency.Enable | src/persistency.c:248-271 | without a folder nothing changes; otherwise only the object's marker changes, enabling an existing marker keeps it, and a failed create or unlink changes nothing |
| Persistency.IsEnabled | src/persistency.c:280-298 | nothing is enabled without a folder |
| Persistency.EnableThenIsEnabled | src/persistency.c:248-298 | storing a flag whose create or unlink works and querying it gives the flag back |
| Persistency.EnableFileFailure | src/persistency.c:219-271 | a failed create or a failed unlink leaves the previous flag in place, so a disable whose unlink fails leaves the object enabled |
| Persistency.EnableKeepsOthers | src/persistency.c:248-298 | storing one object's flag leaves every other object's flag alone |
| UpgradePersistency.PasswordFilePathsDiffer | src/upgrade_persistency.c:159-170 | the ASCII and hexadecimal password files of an ANI are different files |
| UpgradePersistency.SetPassword | src/upgrade_persistency.c:185-220 | an empty password removes both files except those whose unlink fails; a non-empty one removes the file of the other format unless its unlink fails and, when the write works, stores the value |
| UpgradePersistency.GetPassword | src/upgrade_persistency.c:242-302 | "no password" exactly when neither file exists; failure exactly when the file consulted (ASCII first) is empty or unreadable; otherwise the first line, hex exactly when only the hex file exists |
| UpgradePersistency.SetThenGet | src/upgrade_persistency.c:185-302 | a saved one-line password is read back with its format when its file is readable and, for a hex password, the old ASCII file could be removed |
| UpgradePersistency.StaleAsciiWins | src/upgrade_persistency.c:205-274 | when saving a hex password cannot unlink an old ASCII file, reading back returns the old ASCII password |
| UpgradePersistency.ClearThenGet | src/upgrade_persistency.c:185-302 | after clearing with working unlinks, no password is found |
| Ani.Append | src/ani.c:113-117 | the result is the ANI path followed by ".TC.Authentication" |
| Ani.AppendBelow | src/ani.c:113-117 | the authentication object lies strictly below the ANI instance |
| Ani.Strip | src/ani.c:86-99 | success exactly when ".TC.Authentication" occurs; the result is the path with its first occurrence removed |
| Ani.StripAppend | src/ani.c:86-117 | stripping undoes appending for an ANI path that does not contain the suffix |
| Ani.AppendStrip | src/ani.c:86-117 | appending undoes stripping when the only occurrence ends the path |
| DmChange.ProcessArgsCommon | src/data_model.c:244-308 | the arguments are accepted exactly when every required key is present, a required index is non-zero, and the path has a known object type; the result carries the path, the index (0 when absent), the type, and the parameters when they form a table |
| DmChange.ApplyParams | src/data_model.c:430-530 | the new parameters are the old ones overridden by the accepted ones, plus Enable = true when it is restored |
| DmChange.UpdateEnable | src/data_model.c:505-530 | Enable is restored exactly for a non-zero index whose persisted flag is set, and then the deferred enable is scheduled; pending enables stay covered |
| DmChange.ChangeObject | src/data_model.c:821-888 | bad arguments fail without change; no object is created or deleted, and only the target object can change; with valid arguments the change succeeds exactly when the target is missing or the host accepts its transaction; a refused change keeps the target's parameters while the ONU marker and the scheduled enable of a first-seen ONU persist; a change that is not a first ONU visit schedules nothing |
| DmChange.ChangeMissingObject | src/data_model.c:821-888 | changing an object that does not exist succeeds and changes nothing |
| DmChange.ChangeSetsAcceptedParams | src/data_model.c:430-494 | a successful change sets exactly the catalog parameters whose type matches and keeps the others |
| DmChange.ChangeChecksOnuOnce | src/data_model.c:538-555 | after a change of an existing ONU the marker is present, and a change of an already marked ONU schedules nothing and restores no Enable |
| DmChange.FirstOnuChangeRestoresEnable | src/data_model.c:505-555 | the first change of an ONU whose flag is set schedules its deferred enable |
| DmChange.IsHexPassword | src/data_model.c:1236-1269 | known exactly when the authentication object has HexadecimalPassword, and true exactly when that is boolean true |
| DmChange.PonModeOf | src/data_model.c:1300-1314 | the mode returned is one whose name prefixes the string; none is returned exactly when no name does |
| DmChange.PonModeRoundTrip | src/data_model.c:1300-1314 | each mode's own name maps back to that mode |
| DmChange.GetAniPonMode | src/data_model.c:1280-1321 | the result is the mapping of the ANI's PONMode string, and it fails when the ANI or a string PONMode is missing |
| Password.CheckPassword | src/password.c:99-155 | accepted exactly when the format and a known PON mode can be read and, for hex, every character is a hex digit and the length is twice the mode's limit; for ASCII, the length is within the mode's limit |
| Password.HexPasswordFormat | src/password.c:113-122 | a hexadecimal password of odd length or with a non-hex digit is refused |
| Password.AsciiLimitByMode | src/password.c:134-147 | in G-PON mode the G-PON limit applies, and in every other known mode the XPON limit |
| Password.SetPassword | src/password.c:168-187 | without a known format a non-empty password does nothing; otherwise it is stored upgrade-persistently and exactly one set_password request is sent |
| Password.PasswordArgs | src/password.c:189-223 | the change targets the authentication object with Password and, when hex, HexadecimalPassword = true |
| Password.UpdatePasswordWrites | src/password.c:189-223 | on an existing authentication object the host accepts, Password becomes the value and HexadecimalPassword becomes true for a hex password and is otherwise left as it was |
| Password.Restore | src/password.c:237-252 | a failed read (missing, empty or unreadable file) or no saved password changes nothing; otherwise only the authentication object can change |
| Password.AuthenticationParamTypes | src/dm_info.c:171-285 | Password is a string and HexadecimalPassword a boolean in the catalog |
| Password.RestoreWritesSaved | src/password.c:237-252 | a saved password is written back into the authentication object |
| Password.SetThenRestore | src/password.c:168-252 | a saved password whose file is readable (and, for hex, whose old ASCII file could be removed) is found again by a restore |
| DataModel.ProcessAddInstanceArgs | src/data_model.c:326-377 | accepted exactly when the common checks pass and the catalog key is present and, for a uint32 key (read as 0 when its value is not a uint32), within its maximum; Name keys are not bounded |
| DataModel.NewParams | src/data_model.c:589-657 | a new instance has every catalog parameter, its key and the accepted given values, plus Enable = true when it is restored |
| DataModel.Created | src/data_model.c:589-657 | the host adds the instance, its catalog sub-objects, and the ONU marker for an ONU, and changes nothing else |
| DataModel.AddInstance | src/data_model.c:589-657 | success exactly when `PrepareAdd` holds (prepare_adding_instance, src/data_model.c:389-416: the path is an existing template without that instance), the type is known and the host accepts (no rejecting validator, no key clash); a failure leaves the tree unchanged, and an add stopped by PrepareAdd or an unknown type changes nothing |
| DataModel.AddCreatesInstance | src/data_model.c:589-657 | a successful add creates the instance with its parameters and sub-objects and keeps every object outside its subtree |
| DataModel.AddRestoresEnable | src/data_model.c:505-657 | a set persisted flag schedules the deferred enable, and a successful add also sets Enable = true; otherwise nothing is scheduled |
| DataModel.DmAddInstance | src/data_model.c:762-779 | bad arguments fail without change; good ones perform the add |
| DataModel.AddRejectsBadArgs | src/data_model.c:326-377 | a missing or zero index, a missing key, or a uint32 key above its maximum refuses the add and leaves the state unchanged |
| DataModel.RemoveInstance | src/data_model.c:669-750 | a missing template or instance is a successful no-op; a non-template fails; otherwise the instance's subtree is deleted unless the host refuses, with reads ignored during the deletion |
| DataModel.RemoveIdempotent | src/data_model.c:695-750 | a second removal succeeds and changes nothing |
| DataModel.RemoveArgsOfAddArgs | src/data_model.c:669-684 | arguments valid for an add read the same for a removal |
| DataModel.AddThenRemove | src/data_model.c:589-750 | adding an instance and removing it gives the original tree back |
| DataModel.AddOrChange | src/data_model.c:922-947 | an existing instance is changed and a missing one is added |
| DataModel.AddOrChangeFrame | src/data_model.c:922-947 | a change of an existing instance neither creates nor deletes objects, and an add leaves every object outside the new subtree alone |
| DataModel.RemoveAllInstances | src/data_model.c:958-1006 | success exactly for an existing template the host lets go; afterwards it has no instances, and only objects below it are deleted |
| DataModel.StatusDown | src/data_model.c:1011-1034 | a Status reading Up becomes Down, and nothing else changes |
| DataModel.InstancesClearedByRemoveAll | src/data_model.c:958-1006 | a removal clears a template's instances exactly when the template exists and either has no instances or is accepted by the host |
| DataModel.ResetTree | src/data_model.c:1049-1097 | the GEM-port instances are deleted, the listed UNIs are brought down, and the rest is unchanged |
| DataModel.ResetTreeClears | src/data_model.c:1049-1097 | a cleared template has no instances left |
| DataModel.ResetTreeUnisDown | src/data_model.c:1011-1097 | no UNI left after the reset reports Up |
| DataModel.PortClearedOrEmpty | src/data_model.c:958-1097 | an accepted GEM-port template is either cleared or had no instances |
| DataModel.ResetMibAt | src/data_model.c:1049-1097 | a missing ONU is a no-op; otherwise the reset changes only the tree and creates no object |
| DataModel.ResetMibAsWritten | src/data_model.c:1049-1097 | a missing or zero index fails; below 10^6 it behaves as the corrected reset, and from 10^6 to 10^7 it resets the ONU with index/10 instead |
| DataModel.OnuPathTruncation | src/data_model.c:1064 | the truncated path is right below index 10^6, wrong from there on, and names ONU index/10 up to 10^7 |
| DataModel.ResetMib | src/data_model.c:1049-1097 | a missing or zero index fails without change; every other index succeeds, creates no object and changes only the tree; a missing ONU is a no-op, and after the reset of an existing ONU none of its EthernetUNI instances reports an Up Status |
| DataModel.ResetMibUnisDown | src/data_model.c:1011-1097 | after a reset no EthernetUNI left reports Up |
| DataModel.ResetMibClearsGemPorts | src/data_model.c:958-1097 | after a reset every accepted GEM-port template of the ONU's ANIs is empty |
| Populate.Init | src/populate_dm_startup.c:619-641 | start-up has no tasks, no ONU initialised, a zero counter and the sweep running |
| Populate.EntryTasks | src/populate_dm_startup.c:436-522 | one QueryContent task for exactly the wanted entries of the index list, where `Wanted` is the filter of that function: a numeric entry, for XPON.ONU within 1..MAX and not both present and initialised, else an absent instance |
| Populate.QueryIndexesTasks | src/populate_dm_startup.c:436-522 | no reply or an empty list gives no tasks; only absent instances are queued, and for XPON.ONU only indexes 1..MAX not yet both present and initialised; every wanted index is queued |
| Populate.ChildTasks | src/populate_dm_startup.c:288-334 | one task per child name, in order, on the child path |
| Populate.Children | src/populate_dm_startup.c:288-334 | the singleton children as content queries, then the template children as index queries |
| Populate.AniFanOut | src/populate_dm_startup.c:288-334 | an ANI instance yields three TC content queries and two index queries (GEM ports and Transceivers) |
| Populate.MarkOnu | src/populate_dm_startup.c:405 | only the slot of the given index becomes set |
| Populate.Expand | src/populate_dm_startup.c:356-414 | an unknown type queues nothing; a known type queues its children; only an ONU marks its slot |
| Populate.QueryContentStep | src/populate_dm_startup.c:356-414 | no reply does nothing; a failed instance update queues no children; a singleton queues its children regardless; a slot is set only by a successful ONU update of that index |
| Populate.HandleTask | src/populate_dm_startup.c:536-562 | an index query never changes the data model or the ONU slots, and no initialised slot is ever cleared |
| Populate.Tick | src/populate_dm_startup.c:524-562 | an empty queue disarms the timer; otherwise the head is dropped, new tasks go to the back, and the timer stays armed exactly while tasks remain |
| Populate.Sweep | src/populate_dm_startup.c:574-607 | the sweep stops when all ONUs are initialised or after 30 rounds; otherwise it queues the ONU discovery behind existing tasks |
| Populate.Run | src/populate_dm_startup.c:536-607 | under any sequence of timer events the ONU slots only grow |
| Populate.AtMostThirtySweeps | src/populate_dm_startup.c:574-607 | whatever the interleaving, at most 30 ONU discoveries are issued in total |
| Populate.Ticks | src/populate_dm_startup.c:536-562 | n ticks handle at most n tasks |
| Populate.TicksHandleInOrder | src/populate_dm_startup.c:524-562 | the first n ticks handle exactly the first n queued tasks, in order |
| IntfPriv.Attach | src/object_intf_priv.c:106-122 | an existing instance gets private data stamped with the uptime, and everything else is unchanged |
| IntfPriv.UpdateLastChange | src/object_intf_priv.c:139-153 | only an object with interface data is restamped |
| IntfPriv.UpdateLastChangeMonotone | src/object_intf_priv.c:139-153 | the stamp never moves back while the uptime grows, and restamping at the same uptime changes nothing |
| DmEvents.NoDot | src/dm_events.c:91-93 | the event path loses its trailing dots and nothing else |
| DmEvents.NoDotAppended | src/dm_events.c:91-93 | a path not ending in a dot loses exactly the dots appended to it |
| DmEvents.EnableChanged | src/dm_events.c:107-147 | enabling an ONU schedules a deferred enable; any other change is sent at once; disabling drops that object's deferred enable; the persisted flag follows the value when its create or unlink works, keeps its old value when that fails, and other objects' flags are untouched |
| DmEvents.OnuOnThenOff | src/dm_events.c:107-147 | switching an ONU on and straight off again leaves the queue unchanged and sends exactly one disable request; the ONU is no longer persistently enabled unless the unlink fails, and then a marker created by the first event stays |
| DmEvents.PasswordChanged | src/dm_events.c:219-252 | a missing field or a failed strip does nothing; otherwise the password is forwarded for the ANI path |
| DmEvents.PasswordChangedForwardsAni | src/dm_events.c:219-252 | the event for an ANI's authentication object forwards exactly that ANI and password |
| DmActions.ReadTrxParamAsWritten | src/dm_actions.c:162-229 | a readable parameter always reads as success, even when the vendor query fails |
| DmActions.ReadTrxParam | src/dm_actions.c:162-229 | the stored value while reads are ignored or for a template; otherwise success exactly when the vendor module answers, with its value |
| DmActions.ReadTrxParamHidesFailure | src/dm_actions.c:206-219 | the two versions differ exactly when the vendor module fails |
| DmActions.ReadTrxParamFailureExample | src/dm_actions.c:206-219 | a failing query of RxPower reads as success with the stale 0 |
| DmActions.LastChangeOnRead | src/dm_actions.c:241-283 | a read returns uptime minus the stamp exactly when interface data exists and the stamp is not ahead; else an error with 0; other reasons are refused |
| DmActions.LastChangeAfterAttach | src/dm_actions.c:241-283 | after an add, LastChange counts from the moment of the add |
| DmActions.LastChangeAfterStatusChange | src/dm_events.c:198-203 | after a Status change LastChange counts from that change |
| DmActions.ObjectDestroyed | src/dm_actions.c:302-339 | a destroy releases the object's private data, and succeeds exactly when there was some; nothing else changes |
| DmActions.ObjectDestroyedOnce | src/dm_actions.c:302-339 | a second destroy finds no private data |
| DmActions.CheckPasswordAction | src/dm_actions.c:394-441 | only validation is implemented; a non-string fails; the empty password passes; otherwise the path must strip and the password must pass the ANI's check |
| DmActions.CheckPasswordOnAuthentication | src/dm_actions.c:394-441 | on an ANI's authentication object, a password is accepted exactly when it is empty or passes the check |

## Left out

- Module management, the vendor-module RPCs, the pon_stat and pon_cfg files and the main entry point are not part of this model. The model sees them only through the `Vendor` replies and the `Call` log.
- Tracing and logging are left out: they do not change state.
- Timers are explicit: `Rth.Tick`, `Populate.Tick` and `Populate.Sweep` are the timer callbacks, and a sequence of `Populate.Event`s stands for their interleaving. Arming is a flag.
- The uptime clock, file I/O and the vendor module are parameters (`uptime`, `IoFaults`, the `fails` flag of `Persistency.Enable`, `Vendor`).
- Memory allocation failures (calloc, amxc_var_add_key, amxc_llist_append) and the "failed to get path" branches of the host API are left out. They depend on the allocator, not on the plugin's logic.
- The host's transaction engine is reduced to a set of objects whose transactions it refuses (`Host.rejects`). Its validators are not modelled.
- The dm_set_* setters, dm_get_param and the folder selection of the persistency init functions are left out. They only forward values.
- Indexes are unbounded `nat`. The atoi overflow and the `%d` printing of indexes of 2^31 and more are not modelled. The 16-byte ONU path is modelled, and it is a finding.
- IntfPriv.UpdateLastChange: the uint32 wrap of the uptime is not modelled. An object missing from the tree is treated as having no private data, where the C code would dereference it.
- DmActions.LastChangeOnRead: an ONU marker counts as no interface data. Status events and LastChange reads occur only on interface objects.
- DmEvents.EnableChanged: the event path is given already resolved, and the arming of the restore-to-HAL timer is not tracked.
- DataModel.AddRestoresEnable: the "nothing is scheduled" clause is stated only for types other than ANI. Adding an ANI also runs the password restore through dm_change_object, and that contract promises only that pending enables stay covered.
- Password.CheckPassword: strings are sequences of characters, each taken as one byte. The C code measures passwords with strlen and tests each byte with isxdigit, so a password with non-ASCII characters is longer in C than in the model. The same single-byte (ASCII) reading applies to paths, file contents and the 256-byte buffers of `Strs.Truncate`, `FileUtils.FirstLine`, `FileUtils.TmpName` and `FileUtils.WriteFile`.
- DmChange.GetAniPonMode: a PONMode value that is not a string gives None. The C code would pass NULL to strncmp there. The plugin's own transactions set PONMode only with a string, because the catalog types it as one.
- DataModel.NewParams: a new instance gets every catalog parameter at its type default (false, "", 0) before the key and the given values. In the running system the host fills these from the data-model definition files, which are not part of this model.
- Password.UpdatePasswordInDm has no contract of its own. Its effect is stated by `Password.PasswordArgs` and `Password.UpdatePasswordWrites`.

## Findings

| source | as written | input that shows it | evidently intended | confidence | as-written member | corrected member |
|---|---|---|---|---|---|---|
| src/data_model.c:1064 | the ONU path is printed into a 16-byte buffer, so an index of 10^6 or more is truncated | index 1234567 gives "XPON.ONU.123456", and the reset runs on another ONU or none | reset the ONU with the given index | not executed | DataModel.ResetMibAsWritten | DataModel.ResetMib |
| src/dm_actions.c:206-219 | a failed vendor query or a reply without the value jumps to exit with the status of the default read, which is ok | a Transceiver RxPower read whose query fails returns ok with the stored 0 | report the failure as an error status | not executed | DmActions.ReadTrxParamAsWritten | DmActions.ReadTrxParam |
