/** What one read-and-dispatch cycle (`io_event`) emits to the registered
    callback, as a value: the events of one cycle in the order they are
    delivered. */
module Dispatch {
  import opened LircTypes
  import opened Registry

  /** The three events the callback receives: "rawdata" with the raw code,
      "data" with a button name and the file of the slot that produced it,
      and "closed". */
  datatype Event = RawData(code: string) | Data(name: string, source: string) | ClosedEvent

  /** One `lirc_nextcode` outcome: 0 with a code, 0 with NULL, or nonzero. */
  datatype NextCode = Code(raw: string) | NoCode | ReadFailed

  /** What successive `lirc_code2char` calls do for one table and one code
      before a call returns nonzero or NULL: the names they yield, in order,
      and the mode they leave the table in (an lircrc entry with a `mode`
      directive switches the table's current mode). */
  datatype Drain = Drain(names: seq<string>, mode: Option<string>)

  /** `lirc_code2char` as an oracle, drained for one table and one code. */
  type Translator = (Table, string) -> Drain

  /** One data event per name, in yield order, all naming the same file. */
  function NameEvents(names: seq<string>, path: string): seq<Event>
  {
    if names == [] then []
    else NameEvents(names[..|names| - 1], path) + [Data(names[|names| - 1], path)]
  }

  /** Event k of a slot names the k-th name yielded and the slot's file. */
  lemma {:induction false} NameEventsAt(names: seq<string>, path: string)
    ensures |NameEvents(names, path)| == |names|
    ensures forall k :: 0 <= k < |names| ==> NameEvents(names, path)[k] == Data(names[k], path)
  {
    if names != [] {
      NameEventsAt(names[..|names| - 1], path);
    }
  }

  /** The data events one slot contributes: none for an empty slot. */
  function SlotEvents(slot: Option<Slot>, code: string, translate: Translator): seq<Event>
  {
    match slot
    case None => []
    case Some(sl) => NameEvents(translate(sl.table, code).names, sl.path)
  }

  /** A slot after its drain: the same table and file, in the mode the drain
      left the table in. */
  function Drained(slot: Option<Slot>, code: string, translate: Translator): Option<Slot>
  {
    match slot
    case None => None
    case Some(sl) => Some(Slot(sl.table.(mode := translate(sl.table, code).mode), sl.path))
  }

  /** The slots after a cycle with a code: every occupied slot drained. */
  function AfterCycle(s: Slots, code: string, translate: Translator): Slots
  {
    seq(|s|, k requires 0 <= k < |s| => Drained(s[k], code, translate))
  }

  /** A cycle changes table modes only: every slot keeps its occupancy, its
      file and its table, except that each table is left in its drain's
      mode; so the table stays packed and records the same names. */
  lemma CycleKeepsLayout(s: Slots, code: string, translate: Translator)
    ensures |AfterCycle(s, code, translate)| == |s|
    ensures forall k :: 0 <= k < |s| ==> (AfterCycle(s, code, translate)[k].Some? <==> s[k].Some?)
    ensures forall k :: 0 <= k < |s| && s[k].Some? ==>
              AfterCycle(s, code, translate)[k].value.path == s[k].value.path &&
              AfterCycle(s, code, translate)[k].value.table.id == s[k].value.table.id &&
              AfterCycle(s, code, translate)[k].value.table.mode == translate(s[k].value.table, code).mode
    ensures Packed(s) ==> Packed(AfterCycle(s, code, translate))
    ensures Paths(AfterCycle(s, code, translate)) == Paths(s)
  {
    var s' := AfterCycle(s, code, translate);
    PathsAgree(s', s);
    if Packed(s) {
      FirstFreeUnique(s', FirstFree(s));
    }
  }

  /** The data events of a whole table: slot by slot in ascending index. */
  function DataEvents(s: Slots, code: string, translate: Translator): seq<Event>
  {
    if s == [] then []
    else DataEvents(s[..|s| - 1], code, translate) + SlotEvents(s[|s| - 1], code, translate)
  }

  /** The events of one cycle, given the poll status, whether the descriptor
      is readable and what `lirc_nextcode` returns. */
  function CycleEvents(s: Slots, status: int, readable: bool, next: NextCode, translate: Translator): (r: seq<Event>)
    ensures status < 0 || !readable || next.NoCode? ==> r == []
    ensures status >= 0 && readable && next.ReadFailed? ==> r == [ClosedEvent]
    ensures status >= 0 && readable && next.Code? ==>
              |r| >= 1 && r[0] == RawData(next.raw) &&
              forall k :: 1 <= k < |r| ==> r[k].Data? && r[k].source in Paths(s)
  {
    if status < 0 || !readable then []
    else
      match next
      case Code(raw) =>
        DataEventsAreData(s, raw, translate);
        [RawData(raw)] + DataEvents(s, raw, translate)
      case NoCode => []
      case ReadFailed => [ClosedEvent]
  }

  /** Every event of the translation pass is a data event naming the file of
      an occupied slot. */
  lemma {:induction false} DataEventsAreData(s: Slots, code: string, translate: Translator)
    ensures forall k :: 0 <= k < |DataEvents(s, code, translate)| ==>
              DataEvents(s, code, translate)[k].Data? &&
              DataEvents(s, code, translate)[k].source in Paths(s)
  {
    if s != [] {
      DataEventsAreData(s[..|s| - 1], code, translate);
      if s[|s| - 1].Some? {
        NameEventsAt(translate(s[|s| - 1].value.table, code).names, s[|s| - 1].value.path);
      }
    }
  }

  /** Slot order: the events of a table made of two parts are the events of
      the first part followed by those of the second. */
  lemma {:induction false} DataEventsAppend(a: Slots, b: Slots, code: string, translate: Translator)
    decreases |b|
    ensures DataEvents(a + b, code, translate) == DataEvents(a, code, translate) + DataEvents(b, code, translate)
  {
    if b == [] {
      assert a + b == a;
    } else {
      var init := b[..|b| - 1];
      var last := SlotEvents(b[|b| - 1], code, translate);
      DataEventsAppend(a, init, code, translate);
      assert (a + b)[..|a + b| - 1] == a + init;
      assert (a + b)[|a + b| - 1] == b[|b| - 1];
      assert DataEvents(a + b, code, translate) == DataEvents(a + init, code, translate) + last;
      assert DataEvents(b, code, translate) == DataEvents(init, code, translate) + last;
    }
  }

  /** Empty slots are skipped: they contribute no event. */
  lemma {:induction false} DataEventsOfEmpty(s: Slots, code: string, translate: Translator)
    requires AllEmpty(s)
    ensures DataEvents(s, code, translate) == []
  {
    if s != [] {
      DataEventsOfEmpty(s[..|s| - 1], code, translate);
    }
  }

  lemma TwoSlotEvents(a: Table, b: Table, pa: string, pb: string, code: string, translate: Translator)
    requires translate(a, code).names == ["POWER"] && translate(b, code).names == ["POWER", "POWER"]
    ensures DataEvents([Some(Slot(a, pa)), Some(Slot(b, pb))], code, translate) ==
            [Data("POWER", pa), Data("POWER", pb), Data("POWER", pb)]
  {
    var one := [Some(Slot(a, pa))];
    var two := [Some(Slot(a, pa)), Some(Slot(b, pb))];
    assert two[..1] == one && one[..0] == [];
    NameEventsAt(["POWER"], pa);
    NameEventsAt(["POWER", "POWER"], pb);
    assert SlotEvents(one[0], code, translate) == [Data("POWER", pa)];
    assert SlotEvents(two[1], code, translate) == [Data("POWER", pb), Data("POWER", pb)];
    assert DataEvents(one, code, translate) == DataEvents([], code, translate) + SlotEvents(one[0], code, translate);
    assert DataEvents(two, code, translate) == DataEvents(one, code, translate) + SlotEvents(two[1], code, translate);
  }

  /** Fan-out: a code that the table in slot 0 maps to one "POWER" and the
      table in slot 1 to two (a repeated press), all other slots empty, gives
      one rawdata event and then three data events in slot order. */
  lemma FanOut(a: Table, b: Table, pa: string, pb: string, rest: Slots, code: string, translate: Translator)
    requires AllEmpty(rest)
    requires translate(a, code).names == ["POWER"] && translate(b, code).names == ["POWER", "POWER"]
    ensures CycleEvents([Some(Slot(a, pa)), Some(Slot(b, pb))] + rest, 0, true, Code(code), translate) ==
            [RawData(code), Data("POWER", pa), Data("POWER", pb), Data("POWER", pb)]
  {
    DataEventsAppend([Some(Slot(a, pa)), Some(Slot(b, pb))], rest, code, translate);
    DataEventsOfEmpty(rest, code, translate);
    TwoSlotEvents(a, b, pa, pb, code, translate);
  }
}
