/** The config table (`my_lirc_config`, MAX_CONFIGS slots) together with the
    ordered list of loaded file names (`configFiles_`), as values. The session
    class updates the real array in place; the functions here say what each
    update must produce. */
module Registry {
  import opened LircTypes

  /** The slot contents and the file name list at one moment. */
  datatype Store = Store(slots: Slots, files: seq<string>)

  /** `lirc_readconfig` as an oracle: given the path it is called with (NULL
      for an empty name) it either yields a table or fails. */
  type Loader = Option<string> -> Option<Table>

  /** The path handed to `lirc_readconfig`: an empty name is passed as NULL,
      which asks liblirc for its default config file. */
  function ConfigPath(name: string): Option<string>
  {
    if |name| > 0 then Some(name) else None
  }

  /** The all-empty table of MAX_CONFIGS slots. */
  function EmptySlots(): Slots
  {
    seq(MaxConfigs, _ => None)
  }

  function EmptyStore(): Store
  {
    Store(EmptySlots(), [])
  }

  ghost predicate AllEmpty(s: Slots)
  {
    forall j :: 0 <= j < |s| ==> s[j].None?
  }

  /** The first-fit scan: the lowest index of an empty slot, or |s| when
      every slot is occupied. */
  function FirstFree(s: Slots): (i: nat)
    ensures i <= |s|
    ensures forall k :: 0 <= k < i ==> s[k].Some?
    ensures i < |s| ==> s[i].None?
  {
    if s == [] || s[0].None? then 0 else 1 + FirstFree(s[1..])
  }

  /** The occupied slots form the prefix 0 .. FirstFree(s) - 1. */
  ghost predicate Packed(s: Slots)
  {
    forall j :: FirstFree(s) <= j < |s| ==> s[j].None?
  }

  /** The file names recorded in the occupied slots, in ascending slot order. */
  function Paths(s: Slots): seq<string>
  {
    if s == [] then []
    else Paths(s[..|s| - 1]) + (if s[|s| - 1].Some? then [s[|s| - 1].value.path] else [])
  }

  /** FirstFree is the only index with its three properties. */
  lemma FirstFreeUnique(s: Slots, i: nat)
    requires i <= |s|
    requires forall k :: 0 <= k < i ==> s[k].Some?
    requires i < |s| ==> s[i].None?
    ensures FirstFree(s) == i
  {
  }

  /** In a packed table the recorded names are exactly the names of slots
      0 .. FirstFree(s) - 1, slot j giving name j. */
  lemma {:induction false} PathsPacked(s: Slots)
    requires Packed(s)
    ensures |Paths(s)| == FirstFree(s)
    ensures forall j :: 0 <= j < FirstFree(s) ==> Paths(s)[j] == s[j].value.path
  {
    if s != [] {
      var t := s[..|s| - 1];
      if s[|s| - 1].None? {
        FirstFreeUnique(t, FirstFree(s));
      } else {
        FirstFreeUnique(t, |t|);
        FirstFreeUnique(s, |s|);
      }
      PathsPacked(t);
    }
  }

  /** Two tables with the same occupied slots holding the same file names
      record the same names. */
  lemma {:induction false} PathsAgree(a: Slots, b: Slots)
    requires |a| == |b|
    requires forall j :: 0 <= j < |a| ==> (a[j].Some? <==> b[j].Some?)
    requires forall j :: 0 <= j < |a| && a[j].Some? ==> a[j].value.path == b[j].value.path
    ensures Paths(a) == Paths(b)
  {
    if a != [] {
      PathsAgree(a[..|a| - 1], b[..|b| - 1]);
    }
  }

  /** An all-empty table is packed and records no name. */
  lemma AllEmptyPacked(s: Slots)
    requires AllEmpty(s)
    ensures FirstFree(s) == 0 && Packed(s) && Paths(s) == []
  {
    FirstFreeUnique(s, 0);
    PathsPacked(s);
  }

  /** Filling the first free slot of a packed table keeps it packed and
      appends the new name to the recorded names. */
  lemma FillFirstFree(s: Slots, x: Slot)
    requires Packed(s) && FirstFree(s) < |s|
    ensures FirstFree(s[FirstFree(s) := Some(x)]) == FirstFree(s) + 1
    ensures Packed(s[FirstFree(s) := Some(x)])
    ensures Paths(s[FirstFree(s) := Some(x)]) == Paths(s) + [x.path]
  {
    var i := FirstFree(s);
    var s' := s[i := Some(x)];
    FirstFreeUnique(s', i + 1);
    PathsPacked(s);
    PathsPacked(s');
  }

  /** One `addConfig(String)` call: first-fit scan, then load. */
  function AddName(r: Store, name: string, load: Loader): (Store, seq<Error>)
  {
    var i := FirstFree(r.slots);
    if i < |r.slots| then
      match load(ConfigPath(name))
      case None => (r, [ReadConfigFailed(name)])
      case Some(t) =>
        var x := Slot(t, name);
        (Store(r.slots[i := Some(x)], r.files + [name]), [])
    else
      (r, [ConfigBufferFull])
  }

  /** What one `addConfig(String)` call does: a full table or a failed load
      reports its error and changes nothing; it succeeds exactly when a slot
      is free and the file loads, and then the table lands in the first free
      slot, the name is appended and no other slot changes. */
  lemma AddNameSpec(r: Store, name: string, load: Loader)
    ensures |AddName(r, name, load).0.slots| == |r.slots|
    ensures FirstFree(r.slots) == |r.slots| ==> AddName(r, name, load) == (r, [ConfigBufferFull])
    ensures FirstFree(r.slots) < |r.slots| && load(ConfigPath(name)).None? ==>
              AddName(r, name, load) == (r, [ReadConfigFailed(name)])
    ensures AddName(r, name, load).1 == [] <==> FirstFree(r.slots) < |r.slots| && load(ConfigPath(name)).Some?
    ensures AddName(r, name, load).1 == [] ==>
              var res := AddName(r, name, load).0;
              res.files == r.files + [name] &&
              res.slots[FirstFree(r.slots)] == Some(Slot(load(ConfigPath(name)).value, name)) &&
              forall j :: 0 <= j < |r.slots| && j != FirstFree(r.slots) ==> res.slots[j] == r.slots[j]
  {
  }

  /** A single load keeps the table packed; on success the name lands in the
      first free slot and is appended to the recorded names. */
  lemma AddNameGrows(r: Store, name: string, load: Loader)
    requires Packed(r.slots)
    ensures Packed(AddName(r, name, load).0.slots)
    ensures AddName(r, name, load).1 == [] ==>
              Paths(AddName(r, name, load).0.slots) == Paths(r.slots) + [name] &&
              FirstFree(AddName(r, name, load).0.slots) == FirstFree(r.slots) + 1
    ensures Paths(r.slots) == r.files ==>
              Paths(AddName(r, name, load).0.slots) == AddName(r, name, load).0.files
  {
    var i := FirstFree(r.slots);
    if i < |r.slots| && load(ConfigPath(name)).Some? {
      FillFirstFree(r.slots, Slot(load(ConfigPath(name)).value, name));
    }
  }

  /** One `addConfig(Array)` call: each element in turn, stopping at the
      first element that is not a string; a failed load does not stop it. */
  function AddNames(r: Store, names: seq<JsValue>, load: Loader): (res: (Store, seq<Error>))
    decreases |names|
    ensures |res.0.slots| == |r.slots|
    ensures |r.files| <= |res.0.files| && res.0.files[..|r.files|] == r.files
  {
    if names == [] then (r, [])
    else if !names[0].JsString? then (r, [NotAString(names[0])])
    else
      var (r1, e1) := AddName(r, names[0].s, load);
      var (r2, e2) := AddNames(r1, names[1..], load);
      assert r2.files[..|r.files|] == r1.files[..|r.files|];
      (r2, e1 + e2)
  }

  /** One step of a batch whose first element is a string. */
  lemma AddNamesStep(r: Store, names: seq<JsValue>, load: Loader)
    requires names != [] && names[0].JsString?
    ensures AddNames(r, names, load).0 == AddNames(AddName(r, names[0].s, load).0, names[1..], load).0
    ensures AddNames(r, names, load).1 ==
            AddName(r, names[0].s, load).1 + AddNames(AddName(r, names[0].s, load).0, names[1..], load).1
  {
  }

  /** A batch keeps the occupied slots a prefix of the table. */
  lemma {:induction false} AddNamesKeepsPacked(r: Store, names: seq<JsValue>, load: Loader)
    requires Packed(r.slots)
    decreases |names|
    ensures Packed(AddNames(r, names, load).0.slots)
  {
    if names != [] && names[0].JsString? {
      AddNamesStep(r, names, load);
      AddNameGrows(r, names[0].s, load);
      AddNamesKeepsPacked(AddName(r, names[0].s, load).0, names[1..], load);
    }
  }

  /** While the recorded names equal the file name list, a batch keeps them
      equal: each file name appended is the name of the slot just filled. */
  lemma {:induction false} AddNamesKeepsMirror(r: Store, names: seq<JsValue>, load: Loader)
    requires Packed(r.slots) && Paths(r.slots) == r.files
    decreases |names|
    ensures Packed(AddNames(r, names, load).0.slots)
    ensures Paths(AddNames(r, names, load).0.slots) == AddNames(r, names, load).0.files
  {
    if names != [] && names[0].JsString? {
      AddNamesStep(r, names, load);
      AddNameGrows(r, names[0].s, load);
      AddNamesKeepsMirror(AddName(r, names[0].s, load).0, names[1..], load);
    }
  }

  /** The names of a string list as JavaScript string values. */
  function AsValues(names: seq<string>): (vs: seq<JsValue>)
    ensures |vs| == |names|
  {
    if names == [] then [] else [JsString(names[0])] + AsValues(names[1..])
  }

  /** The copy holds, at each index, the same name as a string value. */
  lemma {:induction false} AsValuesAt(names: seq<string>)
    ensures forall k :: 0 <= k < |names| ==> AsValues(names)[k] == JsString(names[k])
  {
    if names != [] {
      AsValuesAt(names[1..]);
      assert forall k :: 0 < k < |names| ==> names[1..][k - 1] == names[k];
    }
  }

  /** A load into a free slot that succeeds records the name and moves the
      first free slot up by one. */
  lemma AddNameLoads(r: Store, name: string, load: Loader)
    requires Packed(r.slots) && FirstFree(r.slots) < |r.slots| && load(ConfigPath(name)).Some?
    ensures AddName(r, name, load).1 == []
    ensures AddName(r, name, load).0.files == r.files + [name]
    ensures Packed(AddName(r, name, load).0.slots)
    ensures FirstFree(AddName(r, name, load).0.slots) == FirstFree(r.slots) + 1
  {
    AddNameGrows(r, name, load);
  }

  /** Every name loads, and the table has a free slot for each of them. */
  ghost predicate RoomFor(r: Store, names: seq<string>, load: Loader)
  {
    Packed(r.slots) && FirstFree(r.slots) + |names| <= |r.slots| &&
    forall k :: 0 <= k < |names| ==> load(ConfigPath(names[k])).Some?
  }

  /** The first step of loading a list of names that all load: the rest of
      the list meets the same conditions against the new table. */
  lemma LoadFirst(r: Store, names: seq<string>, load: Loader)
    requires names != [] && RoomFor(r, names, load)
    ensures var r1 := AddName(r, names[0], load).0;
            RoomFor(r1, names[1..], load) &&
            r1.files == r.files + [names[0]] &&
            AddNames(r, AsValues(names), load) == AddNames(r1, AsValues(names[1..]), load)
  {
    var vs := AsValues(names);
    AddNameLoads(r, names[0], load);
    assert vs[0] == JsString(names[0]) && vs[1..] == AsValues(names[1..]);
    AddNamesStep(r, vs, load);
    var r1 := AddName(r, names[0], load).0;
    var tail := AddNames(r1, vs[1..], load);
    assert AddNames(r, vs, load).1 == [] + tail.1 == tail.1;
  }

  /** Loading names that all load successfully into enough free slots records
      them in order, with no error. */
  lemma {:induction false} LoadAllInOrder(r: Store, names: seq<string>, load: Loader)
    requires RoomFor(r, names, load)
    decreases |names|
    ensures AddNames(r, AsValues(names), load).1 == []
    ensures AddNames(r, AsValues(names), load).0.files == r.files + names
  {
    if names == [] {
      assert AsValues(names) == [];
      assert AddNames(r, [], load) == (r, []);
    } else {
      LoadFirst(r, names, load);
      var r1 := AddName(r, names[0], load).0;
      var rest := names[1..];
      LoadAllInOrder(r1, rest, load);
      assert [names[0]] + rest == names;
      assert r.files + [names[0]] + rest == r.files + ([names[0]] + rest);
    }
  }

  /** Reloading a file list into an empty table restores the list, as long as
      it fits and every file loads. */
  lemma ReplayRestores(files: seq<string>, load: Loader)
    requires |files| <= MaxConfigs
    requires forall k :: 0 <= k < |files| ==> load(ConfigPath(files[k])).Some?
    ensures AddNames(EmptyStore(), AsValues(files), load) == (AddNames(EmptyStore(), AsValues(files), load).0, [])
    ensures AddNames(EmptyStore(), AsValues(files), load).0.files == files
  {
    AllEmptyPacked(EmptySlots());
    LoadAllInOrder(EmptyStore(), files, load);
  }

  /** A batch stops at its first non-string element: the elements before it
      are loaded and the element is reported; nothing after it is tried. */
  lemma {:induction false} StopsAtNonString(r: Store, names: seq<JsValue>, i: nat, load: Loader)
    requires i < |names| && !names[i].JsString?
    requires forall k :: 0 <= k < i ==> names[k].JsString?
    decreases i
    ensures AddNames(r, names, load).0 == AddNames(r, names[..i], load).0
    ensures AddNames(r, names, load).1 == AddNames(r, names[..i], load).1 + [NotAString(names[i])]
  {
    if i > 0 {
      var r1 := AddName(r, names[0].s, load).0;
      assert names[1..][..i - 1] == names[..i][1..];
      StopsAtNonString(r1, names[1..], i - 1, load);
    }
  }
}
