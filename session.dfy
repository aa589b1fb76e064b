/** The process-wide state of the binding and the operations that change it:
    `connect`, `close`, `ReConnect`, `addConfig`, `clearConfig`, the
    `io_event` cycle and the property accessors. Foreign calls into liblirc
    and libuv are parameters: the descriptor `lirc_init` would return, the
    `lirc_readconfig` loader, the `lirc_nextcode` outcome and the
    `lirc_code2char` translator. */
module LircSession {
  import opened LircTypes
  import opened Registry
  import opened ConnectArgs
  import opened Dispatch
  import opened Mode

  class Session {
    /** my_lirc_config: MAX_CONFIGS slots, each empty or holding a table. */
    var slots: array<Option<Slot>>
    /** configFiles_: the names of the files loaded, in load order. */
    var configFiles: seq<string>
    /** closed: no connection to lircd is established. */
    var closed: bool
    /** lircd_fd: the daemon descriptor, -1 when none is open. */
    var fd: int
    /** read_watcher_ != NULL: the poll watcher on the descriptor is running. */
    var watcherArmed: bool
    /** gProgramName, gVerbose, global_cb: what `ReConnect` replays. */
    var programName: string
    var verbose: bool
    var callback: Option<FunctionId>

    /** The slot table has its fixed size and is filled from the front. */
    ghost predicate WellFormed()
      reads this, slots
    {
      slots.Length == MaxConfigs && Packed(slots[..])
    }

    /** Connected exactly when the descriptor is open and the watcher runs;
        while connected, slot j holds the table of configFiles[j]. */
    ghost predicate Valid()
      reads this, slots
    {
      WellFormed() &&
      (closed <==> fd < 0) &&
      (watcherArmed <==> !closed) &&
      (!closed ==> Paths(slots[..]) == configFiles)
    }

    ghost function StoreOf(): Store
      reads this, slots
    {
      Store(slots[..], configFiles)
    }

    /** The state at module load: closed, no descriptor, no watcher, every
        slot empty. */
    constructor ()
      ensures Valid() && fresh(slots)
      ensures closed && fd == -1 && !watcherArmed
      ensures configFiles == [] && AllEmpty(slots[..]) && callback == None
    {
      slots := new Option<Slot>[MaxConfigs](_ => None);
      configFiles := [];
      closed := true;
      fd := -1;
      watcherArmed := false;
      programName := "";
      verbose := false;
      callback := None;
      new;
      AllEmptyPacked(slots[..]);
    }

    /** Empties every slot (the loops of connect, close and clearConfig; the
        tables they free are foreign resources). */
    method EmptyAllSlots()
      requires slots.Length == MaxConfigs
      modifies slots
      ensures AllEmpty(slots[..]) && slots[..] == EmptySlots()
      ensures FirstFree(slots[..]) == 0 && Packed(slots[..]) && Paths(slots[..]) == []
    {
      for i := 0 to MaxConfigs
        invariant forall k :: 0 <= k < i ==> slots[k].None?
      {
        slots[i] := None;
      }
      assert slots[..] == EmptySlots();
      AllEmptyPacked(slots[..]);
    }

    /** addConfig(String): first-fit scan for an empty slot, then load. */
    method AddConfigName(name: string, load: Loader) returns (errs: seq<Error>)
      requires WellFormed()
      modifies slots, this`configFiles
      ensures WellFormed()
      ensures (StoreOf(), errs) == AddName(old(StoreOf()), name, load)
      ensures old(Valid()) ==> Valid()
    {
      AddNameGrows(StoreOf(), name, load);
      var i := 0;
      while i < MaxConfigs && slots[i].Some?
        invariant 0 <= i <= MaxConfigs
        invariant forall k :: 0 <= k < i ==> slots[k].Some?
      {
        i := i + 1;
      }
      FirstFreeUnique(slots[..], i);
      if i < MaxConfigs {
        var table := load(ConfigPath(name));
        if table.None? {
          return [ReadConfigFailed(name)];
        }
        slots[i] := Some(Slot(table.value, name));
        configFiles := configFiles + [name];
        errs := [];
      } else {
        errs := [ConfigBufferFull];
      }
    }

    /** addConfig(Array): every element in order; a non-string element stops
        the batch, a failed load does not. */
    method AddConfigList(names: seq<JsValue>, load: Loader) returns (errs: seq<Error>)
      requires WellFormed()
      modifies slots, this`configFiles
      ensures WellFormed()
      ensures (StoreOf(), errs) == AddNames(old(StoreOf()), names, load)
      ensures old(Valid()) ==> Valid()
    {
      ghost var start := StoreOf();
      ghost var final := AddNames(start, names, load);
      errs := [];
      var i := 0;
      while i < |names|
        invariant 0 <= i <= |names| && WellFormed()
        invariant AddNames(StoreOf(), names[i..], load).0 == final.0
        invariant errs + AddNames(StoreOf(), names[i..], load).1 == final.1
      {
        assert names[i..][0] == names[i];
        if !names[i].JsString? {
          assert AddNames(StoreOf(), names[i..], load) == (StoreOf(), [NotAString(names[i])]);
          errs := errs + [NotAString(names[i])];
          break;
        }
        AddNamesStep(StoreOf(), names[i..], load);
        assert names[i..][1..] == names[i + 1..];
        var e := AddConfigName(names[i].s, load);
        errs := errs + e;
        i := i + 1;
      }
      if i == |names| {
        assert names[i..] == [];
      }
      assert StoreOf() == final.0 && errs == final.1;
      AddNamesKeepsPacked(start, names, load);
      if Paths(start.slots) == start.files {
        AddNamesKeepsMirror(start, names, load);
      }
    }

    /** connect(…, Array, cb): a no-op while connected. Otherwise it records
        the program name and verbose flag, empties the slots, opens the
        descriptor if none is open, and on success loads the list, starts
        the watcher, records the callback and becomes connected, even when
        some loads failed. */
    method ConnectList(name: string, verb: bool, configs: seq<JsValue>, cb: Option<FunctionId>,
                       lircInit: int, load: Loader) returns (errs: seq<Error>)
      requires Valid()
      modifies this, slots
      ensures Valid() && slots == old(slots)
      ensures !old(closed) ==> errs == [] && unchanged(this) && unchanged(slots)
      ensures old(closed) ==> programName == name && verbose == verb
      ensures old(closed) ==> fd == (if old(fd) == -1 then lircInit else old(fd))
      ensures old(closed) && fd < 0 ==>
                closed && !watcherArmed && errs == [InitFailed] && AllEmpty(slots[..]) &&
                configFiles == old(configFiles) && callback == old(callback)
      ensures old(closed) && fd >= 0 ==>
                !closed && watcherArmed && callback == cb &&
                (StoreOf(), errs) == AddNames(EmptyStore(), configs, load)
    {
      if !closed {
        return [];
      }
      closed := true;
      programName, verbose := name, verb;
      EmptyAllSlots();
      if fd == -1 {
        fd := lircInit;
      }
      if fd < 0 {
        return [InitFailed];
      }
      errs := LoadFresh(configs, load);
      if !watcherArmed {
        watcherArmed := true;
      }
      callback := cb;
      closed := false;
    }

    /** The loading step of connect: a fresh file name list, then the whole
        config list into the emptied slots. */
    method LoadFresh(configs: seq<JsValue>, load: Loader) returns (errs: seq<Error>)
      requires slots.Length == MaxConfigs && slots[..] == EmptySlots()
      modifies slots, this`configFiles
      ensures WellFormed() && Paths(slots[..]) == configFiles
      ensures (StoreOf(), errs) == AddNames(EmptyStore(), configs, load)
    {
      configFiles := [];
      AllEmptyPacked(slots[..]);
      errs := AddConfigList(configs, load);
      AddNamesKeepsMirror(EmptyStore(), configs, load);
    }

    /** close(): a no-op while closed. Otherwise it frees and empties every
        slot, stops the watcher, closes the descriptor and becomes closed;
        the file name list is kept for `ReConnect`. */
    method Close()
      requires Valid()
      modifies this, slots
      ensures Valid() && slots == old(slots)
      ensures old(closed) ==> unchanged(this) && unchanged(slots)
      ensures !old(closed) ==>
                closed && fd == -1 && !watcherArmed && AllEmpty(slots[..]) &&
                configFiles == old(configFiles) && programName == old(programName) &&
                verbose == old(verbose) && callback == old(callback)
    {
      if closed {
        return;
      }
      EmptyAllSlots();
      watcherArmed := false;
      fd := -1;
      closed := true;
    }

    /** clearConfig(): empties the file name list and every slot, connected
        or not. */
    method ClearConfig()
      requires Valid()
      modifies slots, this`configFiles
      ensures Valid()
      ensures configFiles == [] && AllEmpty(slots[..])
    {
      configFiles := [];
      EmptyAllSlots();
    }

    /** The JavaScript `connect`: a no-op while connected, before any
        argument check; otherwise the arguments are classified and the
        matching `connect` overload runs. A string config, or the default
        "", is wrapped into a one-element list. */
    method Connect(args: seq<JsValue>, lircInit: int, load: Loader) returns (errs: seq<Error>)
      requires Valid()
      modifies this, slots
      ensures Valid() && slots == old(slots)
      ensures !old(closed) ==> errs == [] && unchanged(this) && unchanged(slots)
      ensures old(closed) && |args| > 4 ==> errs == [TooManyArguments]
      ensures old(closed) && !Acceptable(args) ==> |errs| == 1 && unchanged(this) && unchanged(slots)
      ensures old(closed) && Acceptable(args) ==>
                (forall p :: 0 <= p < |args| && RoleAt(args, p) == ProgramName ==> programName == args[p].s) &&
                (forall v :: 0 <= v < |args| && RoleAt(args, v) == Verbose ==> verbose == args[v].b) &&
                ((forall v :: 0 <= v < |args| ==> !args[v].JsBool?) ==> !verbose)
      ensures old(closed) && Acceptable(args) ==> fd == (if old(fd) == -1 then lircInit else old(fd))
      ensures old(closed) && Acceptable(args) && fd < 0 ==>
                closed && !watcherArmed && errs == [InitFailed] && AllEmpty(slots[..]) &&
                configFiles == old(configFiles) && callback == old(callback)
      ensures old(closed) && Acceptable(args) && fd >= 0 ==>
                !closed && watcherArmed &&
                (forall c :: 0 <= c < |args| && RoleAt(args, c) == Callback ==> callback == Some(args[c].f))
      ensures old(closed) && Acceptable(args) && fd >= 0 &&
              (forall c :: 0 <= c < |args| ==> RoleAt(args, c) != Config) ==>
                (StoreOf(), errs) == AddNames(EmptyStore(), [JsString("")], load)
      ensures old(closed) && Acceptable(args) && fd >= 0 ==>
                forall c :: 0 <= c < |args| && RoleAt(args, c) == Config ==>
                  (StoreOf(), errs) == AddNames(EmptyStore(), ConfigValues(args[c]), load)
    {
      if !closed {
        return [];
      }
      var r := Classify(args);
      if r.Rejected? {
        return [r.error];
      }
      var c := r.choice;
      assert Fits(args, c);
      assert RoleAt(args, c.program) == ProgramName && RoleAt(args, c.callback) == Callback;
      assert c.verbose.Some? ==> RoleAt(args, c.verbose.value) == Verbose;
      assert c.config.Some? ==> RoleAt(args, c.config.value) == Config;
      var name := args[c.program].s;
      var verb := if c.verbose.Some? then args[c.verbose.value].b else false;
      var cb := Some(args[c.callback].f);
      if c.config.None? {
        errs := ConnectList(name, verb, [JsString("")], cb, lircInit, load);
      } else if args[c.config.value].JsArray? {
        errs := ConnectList(name, verb, args[c.config.value].elems, cb, lircInit, load);
      } else {
        errs := ConnectList(name, verb, [JsString(args[c.config.value].s)], cb, lircInit, load);
      }
    }

    /** ReConnect: a no-op while connected; otherwise `connect` with the
        remembered program name, verbose flag and callback and a copy of the
        file name list. */
    method ReConnect(lircInit: int, load: Loader) returns (errs: seq<Error>)
      requires Valid()
      modifies this, slots
      ensures Valid() && slots == old(slots)
      ensures !old(closed) ==> errs == [] && unchanged(this) && unchanged(slots)
      ensures old(closed) ==> programName == old(programName) && verbose == old(verbose)
      ensures old(closed) ==> fd == (if old(fd) == -1 then lircInit else old(fd))
      ensures old(closed) && fd < 0 ==>
                closed && !watcherArmed && errs == [InitFailed] && AllEmpty(slots[..]) &&
                configFiles == old(configFiles) && callback == old(callback)
      ensures old(closed) && fd >= 0 ==>
                !closed && watcherArmed && callback == old(callback) &&
                (StoreOf(), errs) == AddNames(EmptyStore(), AsValues(old(configFiles)), load)
      ensures old(closed) && fd >= 0 && |old(configFiles)| <= MaxConfigs &&
              (forall k :: 0 <= k < |old(configFiles)| ==> load(ConfigPath(old(configFiles)[k])).Some?) ==>
                configFiles == old(configFiles) && errs == []
    {
      if !closed {
        return [];
      }
      ghost var files := configFiles;
      var snapshot := AsValues(configFiles);
      errs := ConnectList(programName, verbose, snapshot, callback, lircInit, load);
      if |files| <= MaxConfigs && forall k :: 0 <= k < |files| ==> load(ConfigPath(files[k])).Some? {
        ReplayRestores(files, load);
      }
    }

    /** The JavaScript `addConfig`: exactly one argument, an array or a string. */
    method AddConfig(args: seq<JsValue>, load: Loader) returns (errs: seq<Error>)
      requires WellFormed()
      modifies slots, this`configFiles
      ensures WellFormed()
      ensures old(Valid()) ==> Valid()
      ensures |args| != 1 ==> errs == [AddConfigArgCount] && unchanged(this) && unchanged(slots)
      ensures |args| == 1 && args[0].JsArray? ==> (StoreOf(), errs) == AddNames(old(StoreOf()), args[0].elems, load)
      ensures |args| == 1 && args[0].JsString? ==> (StoreOf(), errs) == AddName(old(StoreOf()), args[0].s, load)
      ensures |args| == 1 && !args[0].JsArray? && !args[0].JsString? ==>
                errs == [AddConfigArgType] && unchanged(this) && unchanged(slots)
    {
      if |args| != 1 {
        return [AddConfigArgCount];
      }
      if args[0].JsArray? {
        errs := AddConfigList(args[0].elems, load);
      } else if args[0].JsString? {
        errs := AddConfigName(args[0].s, load);
      } else {
        errs := [AddConfigArgType];
      }
    }

    /** One `io_event` cycle: nothing on a poll error or when not readable;
        on a code, one rawdata event and then, slot by slot in ascending
        order, one data event per name the slot's table yields, each table
        left in the mode its translation switched to; on a failed read,
        `close()` and then one closed event. */
    method IoEvent(status: int, readable: bool, next: NextCode, translate: Translator) returns (events: seq<Event>)
      requires Valid()
      modifies this, slots
      ensures Valid() && slots == old(slots)
      ensures events == CycleEvents(old(slots[..]), status, readable, next, translate)
      ensures status < 0 || !readable || next.NoCode? ==> unchanged(this) && unchanged(slots)
      ensures status >= 0 && readable && next.Code? ==>
                unchanged(this) && slots[..] == AfterCycle(old(slots[..]), next.raw, translate)
      ensures status >= 0 && readable && next.ReadFailed? ==>
                closed && !watcherArmed && configFiles == old(configFiles) &&
                programName == old(programName) && verbose == old(verbose) && callback == old(callback) &&
                (old(closed) ==> unchanged(this) && unchanged(slots)) &&
                (!old(closed) ==> fd == -1 && AllEmpty(slots[..]))
    {
      events := [];
      if status < 0 || !readable {
        return;
      }
      match next {
      case NoCode =>
      case ReadFailed =>
        Close();
        events := [ClosedEvent];
      case Code(code) =>
        CycleKeepsLayout(slots[..], code, translate);
        events := DispatchCode(code, translate);
      }
    }

    /** The code branch of `io_event`: one rawdata event, then each occupied
        slot in ascending order drained of the names its table yields (the
        data events are gathered first and delivered after the rawdata one);
        each drained table is left in the mode its translation switched to. */
    method DispatchCode(code: string, translate: Translator) returns (events: seq<Event>)
      requires slots.Length == MaxConfigs
      modifies slots
      ensures events == [RawData(code)] + DataEvents(old(slots[..]), code, translate)
      ensures slots[..] == AfterCycle(old(slots[..]), code, translate)
    {
      var table := slots[..];
      var data: seq<Event> := [];
      for i := 0 to |table|
        invariant data == DataEvents(table[..i], code, translate)
        invariant forall k :: 0 <= k < i ==> slots[k] == Drained(table[k], code, translate)
        invariant forall k :: i <= k < |table| ==> slots[k] == table[k]
      {
        assert table[..i + 1][..i] == table[..i];
        if table[i].Some? {
          var more, after := DrainSlot(table[i].value, code, translate);
          data := data + more;
          slots[i] := Some(after);
        }
      }
      assert table[..|table|] == table;
      assert slots[..] == AfterCycle(table, code, translate);
      events := [RawData(code)] + data;
    }

    /** isConnected: true exactly when not closed. */
    method IsConnected() returns (connected: bool)
      requires Valid()
      ensures connected <==> !closed
      ensures connected <==> fd >= 0 && watcherArmed
    {
      connected := !closed;
    }

    /** configFiles: the recorded file names; while connected these are the
        files of slots 0, 1, … in order. */
    method ConfigFiles() returns (files: seq<string>)
      requires Valid()
      ensures files == configFiles
      ensures !closed ==>
                |files| == FirstFree(slots[..]) &&
                (forall j :: 0 <= j < |files| ==> slots[j].Some? && slots[j].value.path == files[j])
    {
      files := configFiles;
      PathsPacked(slots[..]);
    }

    /** mode (read): the current mode of slot 0's table, undefined when slot 0
        is empty. */
    method GetMode() returns (m: Option<string>)
      requires WellFormed()
      ensures m == ModeOf(slots[..])
      ensures slots[0].None? ==> m == None
    {
      if slots[0].Some? {
        m := slots[0].value.table.mode;
      } else {
        m := None;
      }
    }

    /** mode (write): refused for a non-string, an error when slot 0 is empty,
        otherwise it sets the mode of slot 0's table only. */
    method SetModeProperty(value: JsValue) returns (err: Option<Error>)
      requires WellFormed()
      modifies slots
      ensures WellFormed()
      ensures (slots[..], err) == SetMode(old(slots[..]), value)
      ensures old(Valid()) ==> Valid()
    {
      SetModeKeepsPaths(slots[..], value);
      if !value.JsString? {
        return Some(ModeNotAString);
      }
      if slots[0].Some? {
        var sl := slots[0].value;
        slots[0] := Some(Slot(sl.table.(mode := Some(value.s)), sl.path));
        err := None;
      } else {
        err := Some(EmptyConfigMode);
      }
    }
  }

  /** The inner loop of `io_event` for one occupied slot: one data event per
      name the slot's table yields for the code, until the translation stops;
      the slot comes back with its table in the mode the translation left. */
  method DrainSlot(slot: Slot, code: string, translate: Translator) returns (events: seq<Event>, after: Slot)
    ensures events == SlotEvents(Some(slot), code, translate)
    ensures Some(after) == Drained(Some(slot), code, translate)
  {
    var drain := translate(slot.table, code);
    var names := drain.names;
    events := [];
    var k := 0;
    while k < |names|
      invariant 0 <= k <= |names|
      invariant events == NameEvents(names[..k], slot.path)
    {
      assert names[..k + 1][..k] == names[..k];
      events := events + [Data(names[k], slot.path)];
      k := k + 1;
    }
    assert names[..k] == names;
    after := Slot(slot.table.(mode := drain.mode), slot.path);
  }

  /** The config list a config argument stands for: the array's elements, or
      the string wrapped into a one-element list. */
  function ConfigValues(v: JsValue): (r: seq<JsValue>)
    ensures v.JsString? ==> r == [v]
    ensures v.JsArray? ==> r == v.elems
  {
    match v
    case JsArray(elems) => elems
    case _ => [v]
  }
}
