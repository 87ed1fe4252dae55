/** extractDict of the current revision: the per-document tables live in one object
    whose builder methods fill them in the order the extraction calls them, together with
    the unknown-data counter (`zefix`) and the switch orientations read from the settings.
    Every builder is proved against the functions in Builders, TypeSpecific and Telemetry. */
module Extraction {
  import opened PyList
  import opened Text
  import opened Values
  import opened Switches
  import opened Builders
  import TS = TypeSpecific
  import Tel = Telemetry

  /** The parts of one model file the builders read. `functions` holds the ID and the
      label of each entry of the Functions section, `controls` its Control and Trim-Control
      texts, in the same order. */
  datatype Document = Document(
    version: Option<int>, modelType: Option<string>, typeItems: seq<TS.Item>,
    functions: seq<(int, string)>, controls: seq<(string, string)>, servos: seq<ServoRecord>,
    flightModes: seq<(int, string)>, timers: seq<(int, string)>,
    telemetry: seq<Tel.Record>, lua: Option<seq<int>>)

  function NoLabels(): seq<string> { seq(FunctionSlots, i => "nix") }
  function NoServos(): seq<string> { seq(ServoSlots, i => "nix") }
  function NoModeLabels(): seq<string> { seq(FlightModeLabels, i => "nix") }
  function NoIds(): seq<Option<int>> { seq(FlightModeSlots, i => None) }
  function NoTimers(): seq<string> { seq(TimerSlots, i => "nix") }
  function NoTimerIds(): seq<Option<int>> { seq(TimerSlots, i => None) }
  function NoLua(): seq<int> { seq(LuaSlots, i => 0) }
  function AllNormal(): seq<int> { seq(|SwList|, i => 1) }

  /** Every field of the viewer but the counter, so that a builder can say which tables
      it changes and that the others stay as they were. */
  datatype Snapshot = Snapshot(
    lang: Lang, aferatgt: TS.Airframe, functionlist: seq<string>, servolist: seq<string>,
    flightmolist: seq<string>, flightmoLast: Option<int>, flightmoid: seq<Option<int>>,
    flightmoseq: seq<Option<int>>, luaid: seq<int>, sensordict: map<Tel.SensorKey, seq<string>>,
    stopwatch: seq<string>, stopwatchid: seq<Option<int>>, hasAccel: bool, swsettings: seq<int>)

  /** The tables as extractDict resets them before each document. */
  function Blank(lang: Lang, swsettings: seq<int>): Snapshot {
    Snapshot(lang, TS.Blank, NoLabels(), NoServos(), NoModeLabels(), None, NoIds(), NoIds(), NoLua(), map[],
             NoTimers(), NoTimerIds(), false, swsettings)
  }

  /** The tables getSwitch reads, out of a snapshot. */
  function LookupOf(st: Snapshot): Tables {
    Tables(st.functionlist, st.servolist, st.stopwatch, st.stopwatchid, st.flightmolist, st.flightmoid,
           st.flightmoseq, st.swsettings)
  }

  /** globalstr's transmitter types: the name and whether it has an accelerometer. */
  const TxTypes: map<int, (string, bool)> := map[
    652 := ("DC-16 V2", false), 653 := ("DS-16 V2", true), 674 := ("DC-16", false),
    675 := ("DS-16", true), 676 := ("DS-14", true), 677 := ("DC-14", false),
    678 := ("DC-24", false), 679 := ("DS-24", true), 680 := ("DS-12", true),
    3857 := ("DC-14 V2", false), 3858 := ("DS-14 V2", true), 3859 := ("DC-24", false),
    3860 := ("DS-24", true), 3861 := ("DC-16 V2", false), 3862 := ("DS-16 V2", true),
    3863 := ("DC-14 V2", false), 3864 := ("DS-14 V2", true), 3865 := ("DS-12", true)]

  /** A transmitter version that globalstr reports as unknown. */
  predicate UnknownTransmitter(version: Option<int>) {
    version.Some? && version.value != 1 && version.value !in TxTypes
  }

  /** Whether the transmitter named by the version has an accelerometer. */
  predicate Accelerometer(version: Option<int>) {
    version.Some? && version.value in TxTypes && TxTypes[version.value].1
  }

  /** The functions table after functions1. */
  function FunctionsOf(doc: Document): seq<string>
    requires AllIndexable(FunctionSlots, doc.functions)
  {
    Assign(NoLabels(), doc.functions)
  }

  /** The servolist updates of servos1 for a document. */
  function ServoUpdatesOf(doc: Document, lang: Lang): seq<(int, string)>
    requires AllIndexable(FunctionSlots, doc.functions)
  {
    ServoUpdates(doc.servos, UserNames(Marks(doc.servos), FunctionsOf(doc)), lang)
  }

  /** typespecific, functions1 or servos1 raises. */
  predicate SkippedEarly(doc: Document, lang: Lang) {
    TS.Configure(TS.Blank, doc.modelType, doc.typeItems, TS.Current, lang).Raised?
    || !AllIndexable(FunctionSlots, doc.functions)
    || !AllIndexable(ServoSlots, ServoUpdatesOf(doc, lang))
  }

  /** The tables after globalstr, typespecific, functions1 and servos1. */
  function EarlyTables(doc: Document, lang: Lang, swsettings: seq<int>): Snapshot
    requires !SkippedEarly(doc, lang)
  {
    Blank(lang, swsettings).(hasAccel := Accelerometer(doc.version),
      aferatgt := TS.Configure(TS.Blank, doc.modelType, doc.typeItems, TS.Current, lang).frame,
      functionlist := FunctionsOf(doc), servolist := Assign(NoServos(), ServoUpdatesOf(doc, lang)))
  }

  /** The unknown data those passes count. */
  function EarlyUnknowns(doc: Document, lang: Lang): nat
    requires !SkippedEarly(doc, lang)
  {
    (if UnknownTransmitter(doc.version) then 1 else 0)
    + TS.Configure(TS.Blank, doc.modelType, doc.typeItems, TS.Current, lang).unknowns
    + CountUnknownNames(ServoUpdatesOf(doc, lang))
  }

  /** The tables functions2 decodes against: those of the builders that run before it
      (the passes in between only write the report). */
  function ControlTables(doc: Document, lang: Lang, swsettings: seq<int>): Tables
    requires !SkippedEarly(doc, lang) && |doc.flightModes| <= FlightModeSlots && AllIndexable(TimerSlots, doc.timers)
  {
    var ids := StoredIds(NoIds(), doc.flightModes);
    Tables(FunctionsOf(doc), Assign(NoServos(), ServoUpdatesOf(doc, lang)),
           Assign(NoTimers(), doc.timers), StoredTimerIds(NoTimerIds(), doc.timers),
           StoredLabels(NoModeLabels(), doc.flightModes), ids, Rotation(NoIds(), ids, |doc.flightModes|),
           swsettings)
  }

  /** getSwitch against fixed tables, as a value: the lemmas about functions2's loop hold
      for any decoder, so they never look into getSwitch itself. */
  type SwitchDecoder = string -> Decoded

  function DecoderOf(t: Tables): SwitchDecoder {
    s => GetSwitch(s, t)
  }

  /** A getSwitch call of functions2 that raises, for the function at `i`. */
  predicate ControlRaises(controls: seq<(string, string)>, decode: SwitchDecoder, i: nat)
    requires i < |controls|
  {
    decode(controls[i].0).Raised? || decode(controls[i].1).Raised?
  }

  /** The unknown data the two getSwitch calls for the function at `i` count. */
  function ControlZefix(controls: seq<(string, string)>, decode: SwitchDecoder, i: nat): nat
    requires i < |controls|
  {
    (if decode(controls[i].0).Decoded? && decode(controls[i].0).unknown then 1 else 0)
    + (if decode(controls[i].1).Decoded? && decode(controls[i].1).unknown then 1 else 0)
  }

  /** functions2's loop decodes the Control and then the Trim-Control of every function:
      None once one of those calls raises, otherwise the unknown data they count. */
  function ControlUnknowns(controls: seq<(string, string)>, decode: SwitchDecoder): (r: Option<nat>)
    ensures r.Some? ==> r.value <= 2 * |controls|
    decreases |controls|
  {
    if controls == [] then Some(0)
    else
      var n := |controls| - 1;
      match ControlUnknowns(controls[..n], decode)
      case None => None
      case Some(k) =>
        if ControlRaises(controls, decode, n) then None
        else Some(k + ControlZefix(controls, decode, n))
  }

  /** functions2 raises exactly when the Control or the Trim-Control of some function makes
      getSwitch raise. */
  lemma {:induction false} ControlsRaiseIff(controls: seq<(string, string)>, decode: SwitchDecoder)
    ensures ControlUnknowns(controls, decode).None? <==> exists i :: 0 <= i < |controls| && ControlRaises(controls, decode, i)
    decreases |controls|
  {
    if controls != [] {
      var n := |controls| - 1;
      var front := controls[..n];
      ControlsRaiseIff(front, decode);
      if ControlUnknowns(controls, decode).None? {
        if ControlUnknowns(front, decode).None? {
          var i :| 0 <= i < n && ControlRaises(front, decode, i);
          assert front[i] == controls[i];
          assert ControlRaises(controls, decode, i);
        } else {
          assert ControlRaises(controls, decode, n);
        }
      } else {
        forall i | 0 <= i < |controls|
          ensures !ControlRaises(controls, decode, i)
        {
          if i < n {
            assert front[i] == controls[i];
            assert !ControlRaises(front, decode, i);
          }
        }
      }
    }
  }

  /** functions2 counts no unknown data exactly when every control decodes to a known switch. */
  lemma {:induction false} ControlsAllKnown(controls: seq<(string, string)>, decode: SwitchDecoder)
    ensures ControlUnknowns(controls, decode) == Some(0)
      <==> forall i :: 0 <= i < |controls| ==> !ControlRaises(controls, decode, i) && ControlZefix(controls, decode, i) == 0
    decreases |controls|
  {
    if controls != [] {
      var n := |controls| - 1;
      var front := controls[..n];
      ControlsAllKnown(front, decode);
      forall i | 0 <= i < n
        ensures (ControlRaises(front, decode, i) <==> ControlRaises(controls, decode, i))
          && ControlZefix(front, decode, i) == ControlZefix(controls, decode, i)
      {
        assert front[i] == controls[i];
      }
      if ControlUnknowns(controls, decode) == Some(0) {
        assert ControlUnknowns(front, decode) == Some(0);
      } else if ControlUnknowns(front, decode) == Some(0) {
        assert ControlRaises(controls, decode, n) || ControlZefix(controls, decode, n) != 0;
      }
    }
  }

  /** The builders whose tables Extracted reads get through: typespecific, functions1,
      servos1, flightmodes1, timers1 and telemdetect do not raise. */
  predicate Built(doc: Document, lang: Lang) {
    !SkippedEarly(doc, lang) && |doc.flightModes| <= FlightModeSlots
    && AllIndexable(TimerSlots, doc.timers) && |doc.timers| < TimerSlots
    && !Tel.Group(map[], doc.telemetry, Tel.AsWritten2023).Raised?
  }

  /** A document the bare except around extractDict skips: one of the builders raises. */
  predicate Skipped(doc: Document, lang: Lang, swsettings: seq<int>) {
    !Built(doc, lang)
    || ControlUnknowns(doc.controls, DecoderOf(ControlTables(doc, lang, swsettings))).None?
    || (doc.lua.Some? && |doc.lua.value| >= LuaSlots)
  }

  /** The tables after extractDict has read a document it does not skip. */
  function Extracted(doc: Document, lang: Lang, swsettings: seq<int>): Snapshot
    requires Built(doc, lang)
  {
    var frame := TS.Configure(TS.Blank, doc.modelType, doc.typeItems, TS.Current, lang).frame;
    var ids := StoredIds(NoIds(), doc.flightModes);
    Snapshot(lang, frame, WithButterfly(FunctionsOf(doc), frame.ailerons), Assign(NoServos(), ServoUpdatesOf(doc, lang)),
             StoredLabels(NoModeLabels(), doc.flightModes), Some(|doc.flightModes| - 1), ids,
             Rotation(NoIds(), ids, |doc.flightModes|),
             if doc.lua.Some? then StoredLua(NoLua(), doc.lua.value) else NoLua(),
             Tel.Group(map[], doc.telemetry, Tel.AsWritten2023).sensors,
             Assign(NoTimers(), doc.timers), StoredTimerIds(NoTimerIds(), doc.timers),
             Accelerometer(doc.version), swsettings)
  }

  /** The tables extractDict builds pass by pass are those of Extracted. */
  lemma ExtractedStages(doc: Document, lang: Lang, swsettings: seq<int>, st: Snapshot)
    requires Built(doc, lang)
    requires var frame := TS.Configure(TS.Blank, doc.modelType, doc.typeItems, TS.Current, lang).frame;
      var ids := StoredIds(NoIds(), doc.flightModes);
      st == EarlyTables(doc, lang, swsettings)
        .(flightmolist := StoredLabels(NoModeLabels(), doc.flightModes), flightmoLast := Some(|doc.flightModes| - 1),
          flightmoid := ids, flightmoseq := Rotation(NoIds(), ids, |doc.flightModes|))
        .(stopwatch := Assign(NoTimers(), doc.timers), stopwatchid := StoredTimerIds(NoTimerIds(), doc.timers))
        .(functionlist := WithButterfly(FunctionsOf(doc), frame.ailerons))
        .(sensordict := Tel.Group(map[], doc.telemetry, Tel.AsWritten2023).sensors)
        .(luaid := if doc.lua.Some? then StoredLua(NoLua(), doc.lua.value) else NoLua())
    ensures st == Extracted(doc, lang, swsettings)
  {
  }

  /** The pieces of unknown data extractDict counts for a document it does not skip. */
  function UnknownsOf(doc: Document, lang: Lang, swsettings: seq<int>): nat
    requires !Skipped(doc, lang, swsettings)
  {
    (if UnknownTransmitter(doc.version) then 1 else 0)
    + TS.Configure(TS.Blank, doc.modelType, doc.typeItems, TS.Current, lang).unknowns
    + CountUnknownNames(ServoUpdatesOf(doc, lang))
    + ControlUnknowns(doc.controls, DecoderOf(ControlTables(doc, lang, swsettings))).value
    + Tel.Group(map[], doc.telemetry, Tel.AsWritten2023).unknowns
  }

  /** The bare except skips every document whose telemetry scan reaches a record at
      Param 256, however well-formed the rest of it is. */
  lemma SkippedAtParam256(doc: Document, lang: Lang, swsettings: seq<int>, s: seq<Tel.Record>, r: Tel.Record, rest: seq<Tel.Record>)
    requires doc.telemetry == s + [r] + rest
    requires Tel.Run(map[], s, Tel.AsWritten2023).status == Tel.Running && r.param == 256
    ensures Skipped(doc, lang, swsettings)
  {
    Tel.AsWrittenRaisesAt256(map[], s, r, rest);
  }

  class Viewer {
    var lang: Lang
    var aferatgt: TS.Airframe
    var functionlist: seq<string>
    var servolist: seq<string>
    /** The ten label slots of `flightmolist`; its eleventh entry is `flightmoLast`. */
    var flightmolist: seq<string>
    var flightmoLast: Option<int>
    var flightmoid: seq<Option<int>>
    var flightmoseq: seq<Option<int>>
    var luaid: seq<int>
    var sensordict: map<Tel.SensorKey, seq<string>>
    var stopwatch: seq<string>
    var stopwatchid: seq<Option<int>>
    var hasAccel: bool
    var zefixmark: nat
    var swsettings: seq<int>

    ghost predicate Valid()
      reads this
    {
      |functionlist| == FunctionSlots && |servolist| == ServoSlots && |flightmolist| == FlightModeLabels
      && |flightmoid| == FlightModeSlots && |flightmoseq| == FlightModeSlots && |luaid| == LuaSlots
      && |stopwatch| == TimerSlots && |stopwatchid| == TimerSlots && |swsettings| == |SwList|
    }

    function State(): Snapshot
      reads this
    {
      Snapshot(lang, aferatgt, functionlist, servolist, flightmolist, flightmoLast, flightmoid,
               flightmoseq, luaid, sensordict, stopwatch, stopwatchid, hasAccel, swsettings)
    }

    /** The tables getSwitch reads. */
    function Lookup(): Tables
      reads this
    {
      LookupOf(State())
    }

    /** Start-up: every switch in its normal orientation until the settings say otherwise. */
    constructor (lang: Lang)
      ensures Valid() && State() == Blank(lang, AllNormal()) && zefixmark == 0
    {
      this.lang := lang;
      aferatgt := TS.Blank;
      functionlist, servolist := NoLabels(), NoServos();
      flightmolist, flightmoLast, flightmoid, flightmoseq := NoModeLabels(), None, NoIds(), NoIds();
      luaid, sensordict := NoLua(), map[];
      stopwatch, stopwatchid := NoTimers(), NoTimerIds();
      hasAccel, zefixmark, swsettings := false, 0, AllNormal();
    }

    /** The reset at the start of extractDict, including `zefix(0)`. */
    method Reset()
      requires |swsettings| == |SwList|
      modifies this
      ensures Valid() && State() == Blank(old(lang), old(swsettings)) && zefixmark == 0
    {
      aferatgt := TS.Blank;
      functionlist, servolist := NoLabels(), NoServos();
      flightmolist, flightmoLast, flightmoid, flightmoseq := NoModeLabels(), None, NoIds(), NoIds();
      luaid, sensordict := NoLua(), map[];
      stopwatch, stopwatchid := NoTimers(), NoTimerIds();
      hasAccel, zefixmark := false, 0;
    }

    // ------------------------------------------------------------ the unknown-data counter

    /** `zefix(1)`: one more piece of unknown data, and the marker text. */
    method MarkUnknown() returns (marker: string)
      modifies this
      ensures marker == Zefix && zefixmark == old(zefixmark) + 1 && State() == old(State())
    {
      zefixmark := zefixmark + 1;
      marker := Zefix;
    }

    /** `zefix(2)`: the count, read after the document to warn about unknown data. */
    method UnknownCount() returns (n: nat)
      ensures n == zefixmark
      ensures n > 0 <==> zefixmark != 0
    {
      n := zefixmark;
    }

    /** getSwitch against the current tables; an unknown code bumps the counter. */
    method DecodeSwitch(s: string) returns (sw: Switch, raised: bool)
      modifies this
      ensures State() == old(State())
      ensures raised <==> GetSwitch(s, old(Lookup())).Raised?
      ensures !raised ==> (sw == GetSwitch(s, old(Lookup())).sw
        && zefixmark == old(zefixmark) + if GetSwitch(s, old(Lookup())).unknown then 1 else 0)
    {
      var r := GetSwitch(s, Lookup());
      sw, raised := Dash, r.Raised?;
      if r.Decoded? {
        sw := r.sw;
        if r.unknown {
          var _ := MarkUnknown();
        }
      }
    }

    /** getCurve; a code past the curve types bumps the counter. */
    method DecodeCurve(code: int) returns (name: string, hasPoints: bool, raised: bool)
      modifies this
      ensures State() == old(State())
      ensures raised <==> GetCurve(code, lang).CurveRaised?
      ensures !raised ==> GetCurve(code, lang) == Curve(name, hasPoints, zefixmark == old(zefixmark) + 1)
      ensures !raised ==> zefixmark in {old(zefixmark), old(zefixmark) + 1}
    {
      var r := GetCurve(code, lang);
      name, hasPoints, raised := "", false, r.CurveRaised?;
      if r.Curve? {
        name, hasPoints := r.name, r.hasPoints;
        if r.unknown {
          var _ := MarkUnknown();
        }
      }
    }

    /** getYesNo; a value other than 0 or 1 bumps the counter. */
    method DecodeYesNo(v: int) returns (text: string)
      modifies this
      ensures State() == old(State()) && text == YesNo(v, lang).text
      ensures zefixmark == old(zefixmark) + if v in {0, 1} then 0 else 1
    {
      var r := YesNo(v, lang);
      text := r.text;
      if r.unknown {
        var _ := MarkUnknown();
      }
    }

    // ------------------------------------------------------------ the builders

    /** typespecific: the servo-count vector. */
    method TypeSpecific(modelType: Option<string>, items: seq<TS.Item>) returns (raised: bool)
      modifies this
      ensures raised <==> TS.Configure(old(aferatgt), modelType, items, TS.Current, lang).Raised?
      ensures raised ==> State() == old(State()) && zefixmark == old(zefixmark)
      ensures !raised ==> (State() == old(State()).(aferatgt := TS.Configure(old(aferatgt), modelType, items, TS.Current, lang).frame)
        && zefixmark == old(zefixmark) + TS.Configure(old(aferatgt), modelType, items, TS.Current, lang).unknowns)
    {
      var frame, unknowns;
      frame, unknowns, raised := TS.ConfigureLoop(aferatgt, modelType, items, TS.Current, lang);
      if !raised {
        aferatgt := frame;
        zefixmark := zefixmark + unknowns;
      }
    }

    /** functions1: each function's label at its ID. */
    method Functions1(functions: seq<(int, string)>) returns (raised: bool)
      requires Valid()
      modifies this
      ensures Valid() && zefixmark == old(zefixmark)
      ensures raised <==> !AllIndexable(FunctionSlots, functions)
      ensures !raised ==> State() == old(State()).(functionlist := Assign(old(functionlist), functions))
    {
      var i := 0;
      while i < |functions|
        invariant 0 <= i <= |functions| && Valid() && zefixmark == old(zefixmark)
        invariant AllIndexable(FunctionSlots, functions[..i])
        invariant State() == old(State()).(functionlist := Assign(old(functionlist), functions[..i]))
      {
        var (id, name) := functions[i];
        if !Indexable(FunctionSlots, id) {
          return true;
        }
        assert functions[..i + 1][..i] == functions[..i];
        functionlist := functionlist[Slot(FunctionSlots, id) := name];
        i := i + 1;
      }
      assert functions[..i] == functions;
      raised := false;
    }

    /** functions2's loop: getSwitch of the Control and then of the Trim-Control of every
        function, counting the unknown data they find. */
    method DecodeControls(controls: seq<(string, string)>) returns (raised: bool)
      requires Valid()
      modifies this
      ensures Valid() && State() == old(State())
      ensures raised <==> ControlUnknowns(controls, DecoderOf(old(Lookup()))).None?
      ensures !raised ==> zefixmark == old(zefixmark) + ControlUnknowns(controls, DecoderOf(old(Lookup()))).value
    {
      ghost var t := Lookup();
      ghost var decode := DecoderOf(t);
      var i := 0;
      while i < |controls|
        invariant 0 <= i <= |controls| && Valid() && State() == old(State()) && Lookup() == t
        invariant ControlUnknowns(controls[..i], decode).Some?
        invariant zefixmark == old(zefixmark) + ControlUnknowns(controls[..i], decode).value
      {
        assert controls[..i + 1][..i] == controls[..i];
        assert decode(controls[i].0) == GetSwitch(controls[i].0, t);
        assert decode(controls[i].1) == GetSwitch(controls[i].1, t);
        var control, r := DecodeSwitch(controls[i].0);
        if !r {
          var trim, r' := DecodeSwitch(controls[i].1);
          r := r';
        }
        if r {
          ControlsRaiseIff(controls, decode);
          assert ControlRaises(controls, decode, i);
          return true;
        }
        i := i + 1;
      }
      assert controls[..i] == controls;
      raised := false;
    }

    /** functions2: decodes the Control and the Trim-Control of every function, then adds
        the virtual Butterfly function and the Brk/Flp defaults. */
    method Functions2(controls: seq<(string, string)>) returns (raised: bool)
      requires Valid()
      modifies this
      ensures Valid()
      ensures raised <==> ControlUnknowns(controls, DecoderOf(old(Lookup()))).None?
      ensures raised ==> State() == old(State())
      ensures !raised ==> (State() == old(State()).(functionlist := WithButterfly(old(functionlist), old(aferatgt).ailerons))
                           && zefixmark == old(zefixmark) + ControlUnknowns(controls, DecoderOf(old(Lookup()))).value)
    {
      raised := DecodeControls(controls);
      if raised { return; }
      if aferatgt.ailerons >= 2 {
        functionlist := functionlist[31 := "Butterfly"];
        if functionlist[5] == "nix" {
          functionlist := functionlist[5 := "Brk"];
        }
        if functionlist[6] == "nix" {
          functionlist := functionlist[6 := "Flp"];
        }
      }
    }

    /** servos1: names for the servo outputs, in three passes over the servos. */
    method Servos1(servos: seq<ServoRecord>) returns (raised: bool)
      requires Valid()
      modifies this
      ensures Valid()
      ensures var u := ServoUpdates(servos, UserNames(Marks(servos), old(functionlist)), old(lang));
        (raised <==> !AllIndexable(ServoSlots, u))
        && (!raised ==> State() == old(State()).(servolist := Assign(old(servolist), u))
                        && zefixmark == old(zefixmark) + CountUnknownNames(u))
    {
      var marks := ClaimedSlots(servos);
      var users := UserLabels(marks);
      raised := NameServos(servos, users);
    }

    /** servos1, first pass: the user-name slots claimed by codes 288-299. */
    static method ClaimedSlots(servos: seq<ServoRecord>) returns (marks: seq<bool>)
      ensures marks == Marks(servos)
    {
      marks := seq(UserSlots, i => false);
      var i := 0;
      while i < |servos|
        invariant 0 <= i <= |servos| && marks == Marks(servos[..i])
      {
        assert servos[..i + 1][..i] == servos[..i];
        var c := servos[i].code;
        if 288 <= c < 300 {
          marks := marks[c - 288 := true];
        }
        i := i + 1;
      }
      assert servos[..i] == servos;
    }

    /** servos1, second pass: a claimed slot takes the label of function 14 + slot. */
    method UserLabels(marks: seq<bool>) returns (users: seq<string>)
      requires Valid() && |marks| == UserSlots
      ensures users == UserNames(marks, functionlist)
      ensures forall k :: 0 <= k < UserSlots && users[k] != "nix" ==> marks[k] && users[k] == functionlist[14 + k]
    {
      users := seq(UserSlots, i => "nix");
      var ii := 0;
      while ii < UserSlots
        invariant 0 <= ii <= UserSlots && |users| == UserSlots
        invariant forall k :: 0 <= k < ii ==> users[k] == UserNames(marks, functionlist)[k]
        invariant forall k :: ii <= k < UserSlots ==> users[k] == "nix"
      {
        if marks[ii] {
          if functionlist[14 + ii] != "nix" {
            users := users[ii := functionlist[14 + ii]];
          } else {
            users := users[ii := "nix"];
          }
        }
        ii := ii + 1;
      }
      assert users == UserNames(marks, functionlist);
    }

    /** servos1, third pass: every servo with a code above 256 names its output. */
    method NameServos(servos: seq<ServoRecord>, users: seq<string>) returns (raised: bool)
      requires Valid() && |users| == UserSlots
      modifies this
      ensures Valid()
      ensures var u := ServoUpdates(servos, users, old(lang));
        (raised <==> !AllIndexable(ServoSlots, u))
        && (!raised ==> State() == old(State()).(servolist := Assign(old(servolist), u))
                        && zefixmark == old(zefixmark) + CountUnknownNames(u))
    {
      var j := 0;
      while j < |servos|
        invariant 0 <= j <= |servos| && Valid()
        invariant AllIndexable(ServoSlots, ServoUpdates(servos[..j], users, lang))
        invariant State() == old(State()).(servolist := Assign(old(servolist), ServoUpdates(servos[..j], users, lang)))
        invariant zefixmark == old(zefixmark) + CountUnknownNames(ServoUpdates(servos[..j], users, lang))
      {
        ServoUpdatesStep(servos, users, lang, j);
        var c := servos[j].code;
        if c > 256 {
          var ind := servos[j].index + 1;
          var name := ServoLabel(c, users);
          ghost var u := ServoUpdates(servos[..j], users, lang);
          raised := NameOne(ind, name);
          if raised {
            ServoUpdatesRaise(servos, users, lang, j);
            return;
          }
          NamedSnoc(old(servolist), u, ind, name);
        } else {
          assert ServoUpdates(servos[..j], users, lang) + [] == ServoUpdates(servos[..j], users, lang);
        }
        j := j + 1;
      }
      assert servos[..j] == servos;
      raised := false;
    }

    /** The name of a servo code above 256. */
    method ServoLabel(c: int, users: seq<string>) returns (name: string)
      requires c > 256 && |users| == UserSlots
      ensures name == ServoName(c, users, lang)
    {
      if c <= 287 {
        name := ServoNames(lang)[c - 257];
      } else if c >= 300 {
        if c - 257 < 64 {
          name := ServoNames(lang)[c - 257];
        } else {
          name := MarkUnknownText();
        }
      } else {
        name := users[c - 288];
      }
    }

    /** The marker text alone; the count is bumped when the name is stored. */
    static method MarkUnknownText() returns (marker: string)
      ensures marker == Zefix
    {
      marker := Zefix;
    }

    /** One step of the third pass: a servo with a code above 256 names slot `ind`. */
    method NameOne(ind: int, name: string) returns (raised: bool)
      requires Valid()
      modifies this
      ensures Valid()
      ensures raised <==> !Indexable(ServoSlots, ind)
      ensures raised ==> State() == old(State()) && zefixmark == old(zefixmark)
      ensures !raised ==> (State() == old(State()).(servolist := old(servolist)[Slot(ServoSlots, ind) := name])
        && zefixmark == old(zefixmark) + if name == Zefix then 1 else 0)
    {
      if !Indexable(ServoSlots, ind) {
        return true;
      }
      servolist := servolist[Slot(ServoSlots, ind) := name];
      if name == Zefix {
        zefixmark := zefixmark + 1;
      }
      raised := false;
    }

    /** flightmodes1: labels and ids in file order, the last index, and the display
        sequence with the default mode moved to the end. */
    method FlightModes1(modes: seq<(int, string)>) returns (raised: bool)
      requires Valid()
      modifies this
      ensures Valid() && zefixmark == old(zefixmark)
      ensures raised <==> |modes| > FlightModeSlots
      ensures !raised ==> State() == old(State()).(
        flightmolist := StoredLabels(old(flightmolist), modes),
        flightmoLast := Some(|modes| - 1),
        flightmoid := StoredIds(old(flightmoid), modes),
        flightmoseq := Rotation(old(flightmoseq), StoredIds(old(flightmoid), modes), |modes|))
    {
      // the two tables, written back as a whole once the loop ends or raises
      var labels, ids := flightmolist, flightmoid;
      var ind := -1;
      var i := 0;
      while i < |modes|
        invariant 0 <= i <= |modes| && i <= FlightModeSlots && ind == i - 1 && unchanged(this)
        invariant labels == StoredLabels(flightmolist, modes[..i]) && ids == StoredIds(flightmoid, modes[..i])
      {
        ind := ind + 1;
        if ind >= FlightModeSlots {
          flightmolist, flightmoid := labels, ids;
          return true;
        }
        // slot 10 of `flightmolist` is overwritten by the last index below
        StoredStep(flightmolist, flightmoid, modes, i);
        if ind < FlightModeLabels {
          labels := labels[ind := modes[i].1];
        }
        ids := ids[ind := Some(modes[i].0)];
        i := i + 1;
      }
      assert modes[..i] == modes;
      flightmolist, flightmoid := labels, ids;
      flightmoLast := Some(ind);
      assert State() == old(State()).(flightmolist := labels, flightmoLast := Some(|modes| - 1), flightmoid := ids);
      Reorder(ind);
      raised := false;
    }

    /** The end of flightmodes1: the ids of modes 1..ind move one place down in the
        display sequence and mode 0 goes to place ind (for ind = -1, the last slot). */
    method Reorder(ind: int)
      requires Valid() && -1 <= ind < FlightModeSlots
      modifies this
      ensures Valid() && zefixmark == old(zefixmark)
      ensures State() == old(State()).(flightmoseq := Rotation(old(flightmoseq), flightmoid, ind + 1))
    {
      ghost var before := State();
      if ind >= 1 {
        var jj := 1;
        while jj <= ind
          invariant 1 <= jj <= ind + 1 && |flightmoseq| == FlightModeSlots
          invariant State() == before.(flightmoseq := flightmoseq) && zefixmark == old(zefixmark)
          invariant forall k :: 0 <= k < FlightModeSlots ==> flightmoseq[k] == if k < jj - 1 then flightmoid[k + 1] else old(flightmoseq)[k]
        {
          flightmoseq := flightmoseq[jj - 1 := flightmoid[jj]];
          jj := jj + 1;
        }
      }
      RotationFinish(old(flightmoseq), flightmoid, ind + 1, flightmoseq);
      flightmoseq := flightmoseq[Slot(FlightModeSlots, ind) := flightmoid[0]];
    }

    /** timers1: each timer's label at its id, and its id at its 1-based position. */
    method Timers1(timers: seq<(int, string)>) returns (raised: bool)
      requires Valid()
      modifies this
      ensures Valid() && zefixmark == old(zefixmark)
      ensures raised <==> !(AllIndexable(TimerSlots, timers) && |timers| < TimerSlots)
      ensures !raised ==> State() == old(State()).(stopwatch := Assign(old(stopwatch), timers),
                                                   stopwatchid := StoredTimerIds(old(stopwatchid), timers))
    {
      if |timers| == 0 {
        assert StoredTimerIds(old(stopwatchid), timers) == stopwatchid;
        return false;
      }
      // the two tables, written back as a whole once the loop ends or raises
      var labels, ids := stopwatch, stopwatchid;
      var jj := 0;
      var i := 0;
      while i < |timers|
        invariant 0 <= i <= |timers| && i < TimerSlots && jj == i && unchanged(this)
        invariant AllIndexable(TimerSlots, timers[..i])
        invariant labels == Assign(stopwatch, timers[..i]) && ids == StoredTimerIds(stopwatchid, timers[..i])
      {
        var (key, name) := timers[i];
        if !Indexable(TimerSlots, key) {
          stopwatch, stopwatchid := labels, ids;
          return true;
        }
        AssignStep(stopwatch, timers, i);
        labels := labels[Slot(TimerSlots, key) := name];
        jj := jj + 1;
        if jj >= TimerSlots {
          assert AllIndexable(TimerSlots, timers) ==> |timers| >= TimerSlots;
          stopwatch, stopwatchid := labels, ids;
          return true;
        }
        ids := ids[jj := Some(key)];
        i := i + 1;
        assert ids == StoredTimerIds(stopwatchid, timers[..i]);
      }
      assert timers[..i] == timers;
      stopwatch, stopwatchid := labels, ids;
      raised := false;
    }

    /** telemdetect, table part, with the guard as written: a Param of 256 raises. A raise
        leaves the devices committed so far and the unknown data counted so far. */
    method TelemDetect(stream: seq<Tel.Record>) returns (raised: bool)
      modifies this
      ensures raised <==> Tel.Group(old(sensordict), stream, Tel.AsWritten2023).Raised?
      ensures raised ==> (State() == old(State()).(sensordict := Tel.Run(old(sensordict), stream, Tel.AsWritten2023).sensors)
        && zefixmark == old(zefixmark) + Tel.Run(old(sensordict), stream, Tel.AsWritten2023).unknowns)
      ensures !raised ==> (State() == old(State()).(sensordict := Tel.Group(old(sensordict), stream, Tel.AsWritten2023).sensors)
        && zefixmark == old(zefixmark) + Tel.Group(old(sensordict), stream, Tel.AsWritten2023).unknowns)
    {
      var sensors, unknowns;
      sensors, unknowns, raised := Tel.GroupDevices(sensordict, stream, Tel.AsWritten2023);
      sensordict := sensors;
      zefixmark := zefixmark + unknowns;
    }

    /** lua1: the app ids of the Lua section at positions 1, 2, ... */
    method Lua1(lua: Option<seq<int>>) returns (raised: bool)
      requires Valid()
      modifies this
      ensures Valid() && zefixmark == old(zefixmark)
      ensures raised <==> lua.Some? && |lua.value| >= LuaSlots
      ensures !raised && lua.Some? ==> State() == old(State()).(luaid := StoredLua(old(luaid), lua.value))
      ensures lua.None? ==> State() == old(State())
    {
      if lua.None? || |lua.value| == 0 {
        assert lua.Some? ==> StoredLua(old(luaid), lua.value) == luaid;
        return false;
      }
      var apps := lua.value;
      var ind := 1;
      var i := 0;
      while i < |apps|
        invariant 0 <= i <= |apps| && ind == i + 1 && ind <= LuaSlots && Valid() && zefixmark == old(zefixmark)
        invariant State() == old(State()).(luaid := StoredLua(old(luaid), apps[..i]))
      {
        if ind >= LuaSlots {
          return true;
        }
        luaid := luaid[ind := apps[i]];
        ind := ind + 1;
        i := i + 1;
        assert luaid == StoredLua(old(luaid), apps[..i]);
      }
      assert apps[..i] == apps;
      raised := false;
    }

    /** extractOpt: the switch orientations of the settings file, applied in order. */
    method ApplySwitchSettings(entries: seq<(string, int)>)
      requires Valid()
      modifies this
      ensures Valid() && zefixmark == old(zefixmark)
      ensures State() == old(State()).(swsettings := Assign(old(swsettings), SettingUpdates(entries)))
    {
      swsettings := Orientations(swsettings, entries);
    }

    /** globalstr, table part: the transmitter type decides `hasAccel`; version 1 names
        no type and an unknown version counts as unknown data. */
    method Transmitter(version: Option<int>)
      modifies this
      ensures State() == old(State()).(hasAccel := if Accelerometer(version) then true
                                                   else if version.Some? && version.value in TxTypes then false
                                                   else old(hasAccel))
      ensures zefixmark == old(zefixmark) + if UnknownTransmitter(version) then 1 else 0
    {
      if version.Some? && version.value != 1 {
        var value := version.value;
        if value in TxTypes {
          hasAccel := TxTypes[value].1;
        } else {
          var _ := MarkUnknown();
        }
      }
    }

    /** extractDict, table part: the reset and the builders in the order the extraction
        runs them. `skipped` is the exception the caller's bare except catches. */
    method ExtractDict(doc: Document) returns (skipped: bool)
      requires Valid()
      modifies this
      ensures Valid()
      ensures skipped <==> Skipped(doc, old(lang), old(swsettings))
      ensures !skipped ==> (State() == Extracted(doc, old(lang), old(swsettings))
                           && zefixmark == UnknownsOf(doc, old(lang), old(swsettings)))
    {
      skipped := EarlyPasses(doc);
      if skipped { return; }
      skipped := LaterPasses(doc);
    }

    /** The reset, globalstr, typespecific, functions1 and servos1: the tables the later
        passes read. */
    method EarlyPasses(doc: Document) returns (skipped: bool)
      requires Valid()
      modifies this
      ensures Valid()
      ensures skipped <==> SkippedEarly(doc, old(lang))
      ensures !skipped ==> (State() == EarlyTables(doc, old(lang), old(swsettings))
                           && zefixmark == EarlyUnknowns(doc, old(lang)))
    {
      ghost var lang0, sw0 := lang, swsettings;
      Reset();
      ghost var st := Blank(lang0, sw0);
      Transmitter(doc.version);
      st := st.(hasAccel := Accelerometer(doc.version));
      ghost var unknowns := if UnknownTransmitter(doc.version) then 1 else 0;
      assert State() == st && zefixmark == unknowns;
      skipped := TypeSpecific(doc.modelType, doc.typeItems);
      if skipped { return; }
      ghost var config := TS.Configure(TS.Blank, doc.modelType, doc.typeItems, TS.Current, lang0);
      st := st.(aferatgt := config.frame);
      unknowns := unknowns + config.unknowns;
      assert State() == st && zefixmark == unknowns;
      skipped := Functions1(doc.functions);
      if skipped { return; }
      st := st.(functionlist := FunctionsOf(doc));
      assert State() == st;
      skipped := Servos1(doc.servos);
      if skipped { return; }
      ghost var u := ServoUpdatesOf(doc, lang0);
      st := st.(servolist := Assign(NoServos(), u));
      unknowns := unknowns + CountUnknownNames(u);
      assert State() == st && zefixmark == unknowns;
    }

    /** flightmodes1, timers1, functions2, telemdetect and lua1. */
    method LaterPasses(doc: Document) returns (skipped: bool)
      requires Valid() && !SkippedEarly(doc, lang) && State() == EarlyTables(doc, lang, swsettings)
      modifies this
      ensures Valid()
      ensures skipped <==> Skipped(doc, old(lang), old(swsettings))
      ensures !skipped ==> (State() == Extracted(doc, old(lang), old(swsettings))
                           && zefixmark == old(zefixmark) + ControlUnknowns(doc.controls, DecoderOf(ControlTables(doc, old(lang), old(swsettings)))).value
                                           + Tel.Group(map[], doc.telemetry, Tel.AsWritten2023).unknowns)
    {
      ghost var lang0, sw0 := lang, swsettings;
      ghost var st := State();
      ghost var frame := aferatgt;
      skipped := FlightModes1(doc.flightModes);
      if skipped { return; }
      ghost var ids := StoredIds(NoIds(), doc.flightModes);
      st := st.(flightmolist := StoredLabels(NoModeLabels(), doc.flightModes), flightmoLast := Some(|doc.flightModes| - 1),
                flightmoid := ids, flightmoseq := Rotation(NoIds(), ids, |doc.flightModes|));
      assert State() == st;
      skipped := Timers1(doc.timers);
      if skipped { return; }
      st := st.(stopwatch := Assign(NoTimers(), doc.timers), stopwatchid := StoredTimerIds(NoTimerIds(), doc.timers));
      assert State() == st;
      assert Lookup() == ControlTables(doc, lang0, sw0);
      ghost var controlled := ControlUnknowns(doc.controls, DecoderOf(Lookup()));
      skipped := Functions2(doc.controls);
      if skipped { return; }
      st := st.(functionlist := WithButterfly(FunctionsOf(doc), frame.ailerons));
      assert State() == st && zefixmark == old(zefixmark) + controlled.value;
      skipped := TelemDetect(doc.telemetry);
      if skipped { return; }
      st := st.(sensordict := Tel.Group(map[], doc.telemetry, Tel.AsWritten2023).sensors);
      assert State() == st;
      skipped := Lua1(doc.lua);
      if skipped { return; }
      st := st.(luaid := if doc.lua.Some? then StoredLua(NoLua(), doc.lua.value) else NoLua());
      assert State() == st;
      ExtractedStages(doc, lang0, sw0, st);
    }
  }

  // ------------------------------------------------------------ what getSwitch finds

  /** After extraction every timer with a label has its id in `stopwatchid`, so code 76
      never raises for a timer id of the file (ids are the non-negative keys of the Timers
      section). */
  lemma ExtractedTimersConsistent(doc: Document, lang: Lang, swsettings: seq<int>)
    requires Built(doc, lang)
    requires forall j :: 0 <= j < |doc.timers| ==> doc.timers[j].0 >= 0
    ensures TimersConsistent(LookupOf(Extracted(doc, lang, swsettings)))
  {
    var t := LookupOf(Extracted(doc, lang, swsettings));
    forall k | 0 <= k < |t.stopwatch| && t.stopwatch[k] != "nix"
      ensures Some(k) in t.stopwatchid
    {
      if forall j :: 0 <= j < |doc.timers| ==> Slot(TimerSlots, doc.timers[j].0) != k {
        AssignUntouched(NoTimers(), doc.timers, k);
        assert false;
      }
      var j :| 0 <= j < |doc.timers| && Slot(TimerSlots, doc.timers[j].0) == k;
      assert t.stopwatchid[j + 1] == Some(k);
    }
  }

  /** With distinct non-negative timer ids, code 76 names timer j by its 1-based position
      in the file and its label. */
  lemma ExtractedTimerNumbering(doc: Document, lang: Lang, swsettings: seq<int>, j: nat, proport: bool)
    requires Built(doc, lang) && j < |doc.timers|
    requires forall i :: 0 <= i < |doc.timers| ==> doc.timers[i].0 >= 0
    requires forall i, i' :: 0 <= i < i' < |doc.timers| ==> doc.timers[i].0 != doc.timers[i'].0
    requires doc.timers[j].1 != "nix"
    ensures var key := doc.timers[j].0;
      TimerRef(key, proport, LookupOf(Extracted(doc, lang, swsettings)))
      == Decoded(Plain((if key < 10 then "T0" else "T") + NatToString(j + 1) + "  (" + doc.timers[j].1 + ")", proport), false)
  {
    StoredTimer(doc.timers, j);
  }

  /** Where timers1 leaves timer j: its label at its id, its id at position j + 1. */
  lemma StoredTimer(timers: seq<(int, string)>, j: nat)
    requires AllIndexable(TimerSlots, timers) && |timers| < TimerSlots && j < |timers|
    requires forall i :: 0 <= i < |timers| ==> timers[i].0 >= 0
    requires forall i, i' :: 0 <= i < i' < |timers| ==> timers[i].0 != timers[i'].0
    ensures timers[j].0 < TimerSlots && Assign(NoTimers(), timers)[timers[j].0] == timers[j].1
    ensures IndexOf(StoredTimerIds(NoTimerIds(), timers), Some(timers[j].0)) == Some(j + 1)
  {
    StoredTimerLabel(timers, j);
    StoredTimerPlace(timers, j);
  }

  lemma StoredTimerLabel(timers: seq<(int, string)>, j: nat)
    requires AllIndexable(TimerSlots, timers) && j < |timers|
    requires forall i :: 0 <= i < |timers| ==> timers[i].0 >= 0
    requires forall i, i' :: 0 <= i < i' < |timers| ==> timers[i].0 != timers[i'].0
    ensures timers[j].0 < TimerSlots && Assign(NoTimers(), timers)[timers[j].0] == timers[j].1
  {
    var key := timers[j].0;
    assert Indexable(TimerSlots, key) && Slot(TimerSlots, key) == key;
    forall j' | j < j' < |timers|
      ensures Slot(TimerSlots, timers[j'].0) != Slot(TimerSlots, key)
    {
      assert Indexable(TimerSlots, timers[j'].0) && timers[j'].0 >= 0;
    }
    AssignLastWriter(NoTimers(), timers, j);
  }

  lemma StoredTimerPlace(timers: seq<(int, string)>, j: nat)
    requires |timers| < TimerSlots && j < |timers|
    requires forall i, i' :: 0 <= i < i' < |timers| ==> timers[i].0 != timers[i'].0
    ensures IndexOf(StoredTimerIds(NoTimerIds(), timers), Some(timers[j].0)) == Some(j + 1)
  {
    var key := timers[j].0;
    var ids := StoredTimerIds(NoTimerIds(), timers);
    forall i | 0 <= i < j + 1
      ensures ids[i] != Some(key)
    {
      if i > 0 {
        assert ids[i] == Some(timers[i - 1].0);
      }
    }
    IndexOfAt(ids, Some(key), j + 1);
  }

  /** After extraction of at most ten flight modes every stored id is in the display
      sequence and has a label, so code 79 never raises. */
  lemma ExtractedFlightModesConsistent(doc: Document, lang: Lang, swsettings: seq<int>)
    requires Built(doc, lang) && |doc.flightModes| < FlightModeSlots
    ensures FlightModesConsistent(LookupOf(Extracted(doc, lang, swsettings)))
  {
    var t := LookupOf(Extracted(doc, lang, swsettings));
    var n := |doc.flightModes|;
    forall j | 0 <= j < |t.flightmoid| && t.flightmoid[j].Some?
      ensures t.flightmoid[j] in t.flightmoseq && j < |t.flightmolist|
    {
      RotationNumbering(NoIds(), t.flightmoid, n, j);
    }
  }

  /** With distinct flight-mode ids (at most ten modes), code 79 names mode p "FM" with its
      place in the display order: p for p >= 1 and the last place n for the default mode. */
  lemma ExtractedFlightModeNumbering(doc: Document, lang: Lang, swsettings: seq<int>, p: nat, proport: bool)
    requires Built(doc, lang) && |doc.flightModes| < FlightModeSlots && p < |doc.flightModes|
    requires forall i, i' :: 0 <= i < i' < |doc.flightModes| ==> doc.flightModes[i].0 != doc.flightModes[i'].0
    ensures var n := |doc.flightModes|;
      FlightModeRef(doc.flightModes[p].0, proport, LookupOf(Extracted(doc, lang, swsettings)))
      == Decoded(Plain("FM" + NatToString(if p == 0 then n else p) + "  (" + doc.flightModes[p].1 + ")", proport), false)
  {
    StoredModeRef(doc.flightModes, p, proport, LookupOf(Extracted(doc, lang, swsettings)));
  }

  /** Code 79 against any tables whose flight-mode part flightmodes1 has filled from `modes`. */
  lemma StoredModeRef(modes: seq<(int, string)>, p: nat, proport: bool, t: Tables)
    requires |modes| < FlightModeSlots && p < |modes|
    requires forall i, i' :: 0 <= i < i' < |modes| ==> modes[i].0 != modes[i'].0
    requires var ids := StoredIds(NoIds(), modes);
      t.flightmoid == ids && t.flightmoseq == Rotation(NoIds(), ids, |modes|)
      && t.flightmolist == StoredLabels(NoModeLabels(), modes)
    ensures var n := |modes|;
      FlightModeRef(modes[p].0, proport, t)
      == Decoded(Plain("FM" + NatToString(if p == 0 then n else p) + "  (" + modes[p].1 + ")", proport), false)
  {
    ModeIndices(NoIds(), NoIds(), modes, p);
    assert t.flightmolist[p] == modes[p].1;
  }

}
