# lirc_client in Dafny

A model of the native part of the `lirc_client` Node binding: the C++ layer
between JavaScript and the LIRC client library (liblirc). It keeps one
process-wide session with the LIRC daemon (lircd). The model covers:

- **The session state machine**: the `closed` flag, the daemon descriptor
  and the poll watcher, changed by `connect`, `close` and `ReConnect`.
- **The config table**: twenty slots filled first-fit, plus the ordered
  list of loaded file names. It is changed by `addConfig` and `clearConfig`,
  and is emptied by `connect` and `close`.
- **The argument validator** of the JavaScript `connect`.
- **The read/dispatch cycle** `io_event`. It turns one `lirc_nextcode`
  result into an ordered list of `rawdata`, `data` and `closed` events.
- **The `isConnected`, `mode` and `configFiles` accessors.**

Modules:

- `LircTypes` (`lirc_types.dfy`): the slot contents, the JavaScript values
  the binding tells apart, and the errors it throws.
- `Registry` (`registry.dfy`): the config table as values.
  - `FirstFree` is the first-fit scan.
  - `Packed` says the occupied slots form a prefix.
  - `Paths` gives the file names recorded in the slots.
  - `AddName` is one `addConfig(String)` and `AddNames` one
    `addConfig(Array)`, with lemmas about both.
- `ConnectArgs` (`connect_args.dfy`): the validator. `Classify` is the
  classification loop. `Acceptable`, `RoleAt` and `InOrder` say, without
  the loop, which argument lists are accepted and which argument plays
  which role.
- `Dispatch` (`dispatch.dfy`): the events of one cycle as a function of
  the slots and of the liblirc results, with lemmas on slot order.
- `Mode` (`mode.dfy`): the `mode` property on slot 0.
- `LircSession` (`session.dfy`): the class `Session`.
  - Its fields are the binding's globals. `slots` is an array of
    MAX_CONFIGS = 20 entries.
  - Its methods change the slots in place, with the loops of the C++ code.
  - Each method is tied to the `Registry`, `Dispatch` and `Mode` functions
    and keeps the invariant `Valid()`:
    - the occupied slots are a prefix;
    - the session is connected exactly when the descriptor is non-negative
      and exactly when the watcher is running;
    - while connected, slot j holds the table loaded from `configFiles[j]`.

Foreign calls become parameters:

- `lirc_init`: the descriptor it would return, `lircInit`.
- `lirc_readconfig`: a `Loader` from the path (`None` for NULL) to a table
  or a failure.
- `lirc_nextcode`: a `NextCode` value (a code, NULL, or a nonzero result).
- `lirc_code2char`: a `Translator` giving, for one table and one code, the
  finite list of names that successive calls yield before one returns
  nonzero or NULL, and the mode those calls leave the table in (an lircrc
  entry with a `mode` directive switches it).
- The libuv watcher: the boolean `watcherArmed`.
- The JavaScript callback: a function id. The events it would receive are
  returned as a sequence.
- `lirc_setmode` and `lirc_getmode`: the table's current mode, held in the
  table value.

A thrown JavaScript exception does not unwind the C++ code. So every method
returns the list of errors it reported, and then goes on as the C++ does.

Behaviour that follows the code:

- A failed load inside `connect` does not abort it. The session still
  becomes connected (src/lirc_client.cc:94-107).
- A full table does not stop a batch. Each later name is reported with
  "Config buffer is full." Only a non-string element ends the batch
  (src/lirc_client.cc:173-179).
- No operation frees a single slot. So the occupied slots are always a
  prefix and the table never has holes (src/lirc_client.cc:78-80, 119-124,
  139-142, 189-194).
- `close` keeps the file name list. `addConfig` while disconnected appends
  to that old list, so the list and the slots agree only while connected.
- `lirc_init` runs only when the descriptor is -1. If it returned another
  negative value, later `connect` calls would fail without retrying.

## Model

| member | source | states |
|---|---|---|
| `LircSession.Session.constructor` | src/lirc_client.cc:29-40 | initial state: closed, descriptor -1, no watcher, every slot empty, no file names |
| `LircSession.Session.EmptyAllSlots` | src/lirc_client.cc:119-124 | afterwards every slot is empty, the table is packed and records no name |
| `LircSession.Session.AddConfigName` | src/lirc_client.cc:136-167 | the in-place first-fit scan and load give exactly `AddName` of the old table and list; it keeps the session invariant, connected or not |
| `LircSession.Session.AddConfigList` | src/lirc_client.cc:169-181 | the loop over the array gives exactly `AddNames` of the old table and list, including the early stop at a non-string element; it keeps the session invariant |
| `LircSession.Session.ConnectList` | src/lirc_client.cc:68-109 | no-op while connected. Otherwise: stores name and verbose; calls `lirc_init` only if the descriptor is -1. A negative descriptor gives "Error on lirc_init." with the session closed, watcher stopped, slots empty and file list unchanged. Success resets the list, loads the configs as `AddNames` from an empty table, starts the watcher, stores the callback and connects, even if loads failed |
| `LircSession.Session.LoadFresh` | src/lirc_client.cc:93-94 | from emptied slots, the file list is reset and the configs loaded; the result is `AddNames` of the configs on an empty table, and the slots mirror the list |
| `LircSession.Session.Close` | src/lirc_client.cc:115-134 | no-op while closed; otherwise every slot emptied, watcher stopped, descriptor -1, closed, with file names, program name, verbose flag and callback kept |
| `LircSession.Session.ClearConfig` | src/lirc_client.cc:183-195 | file list and all slots emptied whatever the connection state; `closed`, descriptor and watcher untouched |
| `LircSession.Session.Connect` | src/lirc_client.cc:198-290 | no-op while connected, before any argument check; more than four arguments is "Only four arguments are allowed."; a list that is not `Acceptable` reports one error and changes nothing; otherwise the program name, verbose flag (default false) and callback come from the arguments in those roles, and the configs loaded are the array, the string wrapped in a one-element list (61-66), or `[""]` when none is given. `lirc_init` runs only when the descriptor is -1; a negative descriptor reports "Error on lirc_init." with the slots emptied and the file list and callback kept; otherwise the session connects with the watcher running |
| `LircSession.ConfigValues` | src/lirc_client.cc:61-66 | a string config stands for the one-element list holding it; an array for its elements |
| `LircSession.Session.ReConnect` | src/lirc_client.cc:292-314 | no-op while connected. Otherwise `connect` runs with the stored program name, verbose flag, callback and a copy of the file list. `lirc_init` runs only when the descriptor is -1; a negative descriptor reports "Error on lirc_init." with the slots emptied and the file list and callback kept. Otherwise it connects, the watcher running, and the table holds `AddNames` of that copy. If every file loads and at most 20 are listed, the file list is exactly what it was and no error is reported |
| `LircSession.Session.AddConfig` | src/lirc_client.cc:326-348 | exactly one argument: an array runs `AddNames`, a string runs `AddName`, any other value or count is a TypeError with nothing changed |
| `LircSession.Session.IsConnected` | src/lirc_client.cc:360-370 | reports `!closed`, which under the invariant is the same as an open descriptor with a running watcher |
| `LircSession.Session.GetMode` | src/lirc_client.cc:372-391 | the corrected getter: the current mode of slot 0's table, undefined when slot 0 is empty (see Findings) |
| `LircSession.Session.SetModeProperty` | src/lirc_client.cc:393-413 | the in-place update equals `SetMode` of the old slots; it keeps the session invariant |
| `LircSession.Session.ConfigFiles` | src/lirc_client.cc:415-425 | returns the file name list; while connected it has one entry per occupied slot and entry j is the file of slot j |
| `LircSession.Session.IoEvent` | src/lirc_client.cc:427-488 | the events are exactly `CycleEvents` of the slots at the start. A poll error, not readable, or no code: nothing changes. A code: only the slots change, to `AfterCycle`, each table left in its translation's mode. A failed read: the session is closed as by `close`, keeping the file list, program name, verbose flag and callback; on a closed session nothing changes |
| `LircSession.Session.DispatchCode` | src/lirc_client.cc:441-473 | the events of a cycle with a code: one rawdata event, then exactly `DataEvents` of the slots at the start; afterwards the slots are `AfterCycle` of the slots at the start |
| `LircSession.DrainSlot` | src/lirc_client.cc:457-468 | the drain loop of one slot emits exactly that slot's `SlotEvents` and returns the slot as `Drained` leaves it |
| `Registry.FirstFree` | src/lirc_client.cc:139-142 | the lowest empty index, or the table size when all are occupied: every slot before it is occupied and the slot at it is empty |
| `Registry.FirstFreeUnique` | src/lirc_client.cc:139-142 | the first-fit index is the only index with those properties |
| `Registry.PathsAgree` | src/lirc_client.cc:406-408 | two tables with the same occupied slots holding the same file names record the same names |
| `Registry.PathsPacked` | src/lirc_client.cc:158-162 | in a packed table the recorded names are one per occupied slot, name j being the file of slot j |
| `Registry.AllEmptyPacked` | src/lirc_client.cc:78-80 | an emptied table is packed, has first free slot 0 and records no name |
| `Registry.FillFirstFree` | src/lirc_client.cc:150-162 | filling the first free slot keeps the table packed, moves the first free index up by one and appends the file name |
| `Registry.AddNameSpec` | src/lirc_client.cc:136-167 | for `AddName`, one `addConfig(String)` call: a full table gives "Config buffer is full." and changes nothing. A failed load gives the file name error and changes nothing. Success exactly when a slot is free and the load succeeds; then the file name is appended, the table fills the first free slot and no other slot changes |
| `Registry.AddNameGrows` | src/lirc_client.cc:139-162 | one load keeps the table packed; a success appends the name to the recorded names; slots and list stay in step if they were |
| `Registry.AddNames` | src/lirc_client.cc:169-181 | a batch never shrinks the file list; the old list stays its prefix |
| `Registry.AddNameLoads` | src/lirc_client.cc:144-162 | a load into a free slot that succeeds reports nothing, appends the name, keeps the table packed and moves the first free slot up by one |
| `Registry.AddNamesStep` | src/lirc_client.cc:173-180 | a batch starting with a string is that one `addConfig(String)` followed by the rest of the batch on the resulting table, its errors first |
| `Registry.AddNamesKeepsPacked` | src/lirc_client.cc:169-181 | a batch keeps the occupied slots a prefix of the table |
| `Registry.AddNamesKeepsMirror` | src/lirc_client.cc:93-94 | when the recorded names equal the file list before a batch (as after `connect` resets both), they are equal after it, each appended file name being the name of the slot just filled |
| `Registry.AsValues` | src/lirc_client.cc:303-306 | the copied list has the same length as the file list |
| `Registry.AsValuesAt` | src/lirc_client.cc:303-306 | the copy holds, at each index, the same file name as a string value |
| `Registry.LoadFirst` | src/lirc_client.cc:173-180 | after the first of a list of names that all load, the rest still fits and loads, the name is appended, and the whole batch equals the batch of the rest on the new table |
| `Registry.LoadAllInOrder` | src/lirc_client.cc:169-181 | names that all load and fit are appended in order with no error |
| `Registry.ReplayRestores` | src/lirc_client.cc:301-310 | reloading a list of at most 20 files that all load into an empty table restores the list exactly, with no error |
| `Registry.StopsAtNonString` | src/lirc_client.cc:174-177 | a batch equals the batch of the elements before its first non-string element plus one error for that element; later elements are not tried |
| `ConnectArgs.Classify` | src/lirc_client.cc:207-276 | more than four arguments is rejected first. It chooses indices exactly when the list is `Acceptable`: no second boolean, function or config, a program name and exactly one callback, and program name, verbose, config in that order. The indices are exactly the positions of the four roles. A missing program name or a missing callback is reported by name |
| `ConnectArgs.CountPrefix` | src/lirc_client.cc:217-251 | a prefix of the arguments never holds more of a kind, or more config candidates, than the whole list |
| `ConnectArgs.ScanRejects` | src/lirc_client.cc:219-247 | an argument whose role is already taken makes the list unacceptable |
| `ConnectArgs.ScanString` | src/lirc_client.cc:218-229 | the first string becomes the program name and a later one the config |
| `ConnectArgs.ScanOther` | src/lirc_client.cc:230-250 | a boolean becomes verbose, a function the callback, an array the config; any other value is skipped |
| `ConnectArgs.CheckRoles` | src/lirc_client.cc:253-276 | after a scan, it chooses exactly when a program name and one callback exist and the roles are in order, choosing the roles' positions; a missing program name is reported before a missing callback |
| `ConnectArgs.ScanComplete` | src/lirc_client.cc:253-276 | after the loop, the three order checks pass exactly when program name, verbose and config are in order, and the indices found are the roles' positions |
| `Dispatch.CycleEvents` | src/lirc_client.cc:433-486 | a poll error, not readable or no code: no event. A failed read: exactly one closed event. A code: one rawdata event first, then only data events, each naming the file of an occupied slot |
| `Dispatch.DataEventsAreData` | src/lirc_client.cc:455-468 | every event of the translation pass is a data event whose source is a file recorded in the slots |
| `Dispatch.DataEventsAppend` | src/lirc_client.cc:455-470 | slot order: the events of a table made of two parts are those of the first part followed by those of the second |
| `Dispatch.NameEventsAt` | src/lirc_client.cc:457-468 | a slot emits one data event per name yielded, event k carrying the k-th name and the slot's file |
| `Dispatch.CycleKeepsLayout` | src/lirc_client.cc:455-468 | a cycle with a code keeps each slot's occupancy, file and table id, leaves each table in its translation's mode, keeps the table packed and the recorded names unchanged |
| `Dispatch.DataEventsOfEmpty` | src/lirc_client.cc:455-456 | empty slots contribute no event |
| `Dispatch.TwoSlotEvents` | src/lirc_client.cc:457-468 | two tables yielding one and two "POWER" names give three data events, slot 0's first |
| `Dispatch.FanOut` | src/lirc_client.cc:441-470 | with those two tables in slots 0 and 1 and the rest empty, one cycle emits one rawdata event and then exactly three data events in slot order |
| `Mode.ModeGetterAsWritten` | src/lirc_client.cc:378-390 | the getter as written: always undefined |
| `Mode.ModeOf` | src/lirc_client.cc:378-381 | the intended getter: undefined when slot 0 is empty |
| `Mode.SetMode` | src/lirc_client.cc:399-411 | a non-string is "Mode should be a string value" and an empty slot 0 is "Cannot set mode on empty config", both changing nothing. It succeeds exactly for a string with slot 0 occupied, and then only slot 0's table mode changes; occupancy, file names and table ids stay |
| `Mode.SetModeKeepsPaths` | src/lirc_client.cc:406-408 | setting the mode keeps the table packed and the recorded names unchanged |
| `Mode.ModeAfterCycle` | src/lirc_client.cc:378-381 | after a cycle with a code, the intended getter reads the mode the translation left slot 0's table in, and undefined when slot 0 is empty |
| `Mode.ModeRoundTrip` | src/lirc_client.cc:399-411 | with a table in slot 0, setting a mode succeeds and the intended getter then reads that mode |
| `Mode.ModeGetterLosesMode` | src/lirc_client.cc:378-390 | right after "TV" is set successfully, the intended getter reads "TV" but the getter as written reads undefined |

## Left out

- V8 plumbing is left out. This covers handles and scopes, `string2char`
  (the UTF-8 copy), `init` and `NODE_MODULE`, the symbol strings, and the
  `Close`/`ClearConfig` wrappers that only call through.
- A callback that throws (`TryCatch`/`FatalException`) is left out.
- The model returns the events of a cycle instead of calling the callback.
  Re-entrant calls from the callback are not modelled: a callback that
  calls `close` or `addConfig` in the middle of a cycle would change the
  slots the C++ loop is still reading.
- libuv is reduced to the `watcherArmed` flag. This covers
  `uv_poll_init`/`uv_poll_start`/`uv_poll_stop`, `uv_close` and
  `on_handle_close`.
- Freeing memory is not tracked. This covers `lirc_freeconfig`,
  `lirc_deinit`, `free(code)` and `delete[]`. So the model does not show
  that `connect` empties slots without freeing them (src/lirc_client.cc:78-80).
  Tables loaded by `addConfig` while disconnected are lost there.
- The second payload of a data event is modelled as the file name stored
  with slot i. The source reads `GetInternalField(i)` of the file name
  array, whose meaning on a JavaScript array is unclear.
- `lirc_readconfig` is a function of the path alone. A file that changes
  between two loads is not modelled.
- `lirc_code2char` is modelled by the finite list of names it yields and
  the mode it leaves the table in. A table that never stops yielding, which
  would hang the C++ loop, is not modelled. Other state liblirc keeps
  inside a table between codes (the position within a multi-key sequence,
  `once` flags) is not modelled: the model's table holds only its mode.
- When one JavaScript call reports several errors, the caller sees only the
  pending exception. The model returns every report in order.
- Before the first `connect` the source leaves the slot pointers and the
  file name array uninitialised. The model starts with every slot empty
  and an empty list. For `ReConnect` before any `connect` it uses "", false
  and no callback.
- Name lengths are sequence lengths. The source tests the JavaScript (UTF-16)
  length, and only against zero.
- The demo script test.js is not part of this model.
- LircSession.Session.ConfigFiles: returns a copy of the file name list.
  The source returns the binding's own array, so a JavaScript caller that
  changes it changes what `ReConnect` replays
  (src/lirc_client.cc:301-310); a non-string element put there would end
  the replay batch (src/lirc_client.cc:174-177). The model does not
  capture that aliasing: `ReConnect` always replays the recorded names,
  all strings.
- Error message strings are not modelled. Each error is a constructor named
  after its message (the README quotes some messages to identify them); the
  string conversion of a non-string array element that the source appends
  to its message is not computed.
- LircSession.Session.Connect: for a list that is not acceptable, only the
  error for more than four arguments is named in the contract. Missing
  program name and missing callback are named in `ConnectArgs.Classify`. For
  a duplicate or misordered argument it says only that exactly one error is
  reported; which message is chosen (the first violation in scan order) is
  not stated.
- ConnectArgs.Classify: names the error only for more than four arguments,
  a missing program name and a missing callback. Which duplicate or order
  message is chosen is not stated.

## Findings

| source | as written | input that shows it | evidently intended | confidence | as-written member | corrected member |
|---|---|---|---|---|---|---|
| src/lirc_client.cc:378-390 | the getter calls `lirc_getmode` on slot 0 and drops the result; `mode_` stays NULL, so `mode` always reads as undefined | load one config, set `mode` to "TV", then read `mode` | return the current mode of slot 0's table, or undefined when slot 0 is empty | not executed; high (the returned local is never assigned) | `Mode.ModeGetterAsWritten`, shown by `Mode.ModeGetterLosesMode` | `Mode.ModeOf`, used by `LircSession.Session.GetMode`, with `Mode.ModeRoundTrip` |
