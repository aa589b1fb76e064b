/** The `mode` property: it reads and writes the current mode of the table
    in slot 0 only. */
module Mode {
  import opened LircTypes
  import opened Registry
  import opened Dispatch

  /** The mode getter as the binding implements it: it calls `lirc_getmode`
      on slot 0 but never stores the result, so the local it returns is still
      NULL and the property always reads as undefined. */
  function ModeGetterAsWritten(s: Slots): (m: Option<string>)
    ensures m == None
  {
    var mode: Option<string> := None;
    mode
  }

  /** The evidently intended getter: the current mode of the table in slot 0,
      undefined when slot 0 is empty. */
  function ModeOf(s: Slots): (m: Option<string>)
    ensures |s| == 0 || s[0].None? ==> m == None
  {
    if |s| > 0 && s[0].Some? then s[0].value.table.mode else None
  }

  /** The mode setter: a non-string is refused, an empty slot 0 is an error,
      otherwise `lirc_setmode` changes the mode of slot 0's table. */
  function SetMode(s: Slots, value: JsValue): (r: (Slots, Option<Error>))
    ensures |r.0| == |s|
    ensures !value.JsString? ==> r == (s, Some(ModeNotAString))
    ensures value.JsString? && (|s| == 0 || s[0].None?) ==> r == (s, Some(EmptyConfigMode))
    ensures r.1 == None <==> value.JsString? && |s| > 0 && s[0].Some?
    ensures forall j :: 0 < j < |s| ==> r.0[j] == s[j]
    ensures forall j :: 0 <= j < |s| ==> (r.0[j].Some? <==> s[j].Some?)
    ensures forall j :: 0 <= j < |s| && s[j].Some? ==>
              r.0[j].value.path == s[j].value.path && r.0[j].value.table.id == s[j].value.table.id
  {
    if !value.JsString? then (s, Some(ModeNotAString))
    else if |s| == 0 || s[0].None? then (s, Some(EmptyConfigMode))
    else
      var sl := s[0].value;
      (s[0 := Some(Slot(sl.table.(mode := Some(value.s)), sl.path))], None)
  }

  /** Setting the mode leaves the slot layout and the recorded names alone. */
  lemma SetModeKeepsPaths(s: Slots, value: JsValue)
    ensures Packed(s) ==> Packed(SetMode(s, value).0)
    ensures Paths(SetMode(s, value).0) == Paths(s)
  {
    var s' := SetMode(s, value).0;
    PathsAgree(s', s);
    if Packed(s) {
      FirstFreeUnique(s', FirstFree(s));
    }
  }

  /** Mode round trip through the intended getter: after a successful set,
      reading gives back the mode just set. */
  lemma ModeRoundTrip(s: Slots, m: string)
    requires |s| > 0 && s[0].Some?
    ensures SetMode(s, JsString(m)).1 == None
    ensures ModeOf(SetMode(s, JsString(m)).0) == Some(m)
  {
  }

  /** After a cycle with a code, the intended getter reads the mode the
      translation left slot 0's table in; an empty slot 0 still reads as
      undefined. */
  lemma ModeAfterCycle(s: Slots, code: string, translate: Translator)
    ensures |s| > 0 && s[0].Some? ==> ModeOf(AfterCycle(s, code, translate)) == translate(s[0].value.table, code).mode
    ensures |s| == 0 || s[0].None? ==> ModeOf(AfterCycle(s, code, translate)) == None
  {
  }

  /** The getter as written loses the mode: right after a successful set of
      "TV" it still reads as undefined, while the table holds "TV". */
  lemma ModeGetterLosesMode(s: Slots)
    requires |s| > 0 && s[0].Some?
    ensures ModeOf(SetMode(s, JsString("TV")).0) == Some("TV")
    ensures ModeGetterAsWritten(SetMode(s, JsString("TV")).0) == None
  {
  }
}
