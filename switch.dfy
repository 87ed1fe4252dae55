/** getSwitch of the current revision: the transmitter stores every switch assignment
    as eight comma-separated integers. Field 7 codes 76-79 refer to a timer, a
    function, a servo or a flight mode; with field 1 empty, field 7 is an offset into
    the seventh-position tables; otherwise field 1 names a stick or switch and the
    remaining fields say how its value is shown. The decoder reads the tables the
    extraction built, passed in as `Tables`. */
module Switches {
  import opened PyList
  import opened Text
  import opened Values

  /** First position: P3 and P4 are swapped as the transmitter stores them. */
  const Switches1: seq<string> :=
    ["nix", "P1", "P2", "P4", "P3", "P5", "P6", "P7", "P8", "SA", "SB",
     "SC", "SD", "SE", "SF", "SG", "SH", "SI", "SJ", "SK", "SL", "P9",
     "P10", "SM", "SN", "SO", "SP"]

  /** Seventh position 0-31: logical switches. */
  const Log: seq<string> :=
    ["Log1", "Log2", "Log3", "Log4", "Log5", "Log6", "Log7", "Log8", "Log9",
     "Log10", "Log11", "Log12", "Log13", "Log14", "Log15", "Log16", "Log17",
     "Log18", "Log19", "Log20", "Log21", "Log22", "Log23", "Log24", Zefix,
     Zefix, Zefix, Zefix, Zefix, Zefix, Zefix, Zefix]
  /** Seventh position 32-47: voice commands. */
  const Voi: seq<string> :=
    ["V01", "V02", "V03", "V04", "V05", "V06", "V07", "V08", "V09", "V10",
     "V11", "V12", "V13", "V14", "V15", Zefix]
  /** Seventh position 48-63: telemetry controls. */
  const Mx: seq<string> :=
    ["MX1", "MX2", "MX3", "MX4", "MX5", "MX6", "MX7", "MX8", "MX9", "MX10",
     "MX11", "MX12", "MX13", "MX14", "MX15", "MX16"]
  /** Seventh position 64-79: accelerometers; 76-79 are taken over by the references. */
  const Gx: seq<string> :=
    ["GX", "GY", "GZ", "G/L", "G/R", "GXL", "GXR", "GHi", Zefix, Zefix,
     Zefix, Zefix, "timer", "function", "servo", "flight mode"]
  /** Seventh position 80-89: sequencers. */
  const Sq: seq<string> := ["Q1", "Q2", "Q3", "Q4", "Q5", "Q6", "Q7", "Q8", "Q9", "Q10"]
  /** Seventh position 90-129: channels, digital trims, Lua controls. */
  const Others: seq<string> :=
    ["CH1", "CH2", "CH3", "CH4", "CH5", "CH6", "CH7", "CH8", Zefix, Zefix,
     Zefix, Zefix, Zefix, Zefix, Zefix, Zefix, "Tr1", "Tr2", "Tr3",
     "Tr4", "Tr5", "Tr6", Zefix, Zefix, Zefix, Zefix, "C01", "C02",
     "C03", "C04", "C05", "C06", "C07", "C08", "C09", "C10", Zefix,
     "Log.MAX", Zefix, Zefix]

  const Switches7: seq<string> := Log + Voi + Mx + Gx + Sq + Others

  /** The hardware switches whose orientation the settings can reverse, in settings order. */
  const SwList: seq<string> :=
    ["SA", "SB", "SC", "SD", "SE", "SF", "SG", "SH", "SI", "SJ", "SK", "SL", "SM", "SN", "SO", "SP"]

  /** The tables getSwitch reads: built per document by the extraction (see Extraction). */
  datatype Tables = Tables(
    functionlist: seq<string>,
    servolist: seq<string>,
    stopwatch: seq<string>,
    stopwatchid: seq<Option<int>>,
    flightmolist: seq<string>,
    flightmoid: seq<Option<int>>,
    flightmoseq: seq<Option<int>>,
    swsettings: seq<int>)

  /** The four results: the switch, the switch with its value, the switch with its value
      only for S switches, and whether it is proportional. */
  datatype Switch = Switch(name: string, withValue: string, withSwitchValue: string, proportional: bool)

  /** A decoded switch and whether decoding called `zefix(1)`; Raised where Python raises. */
  datatype Decoded = Raised | Decoded(sw: Switch, unknown: bool)

  function Plain(out: string, proportional: bool): Switch {
    Switch(out, out, out, proportional)
  }

  const Dash := Plain("-", false)
  const Unresolved := Plain("??", false)
  const ZefixSwitch := Plain(Zefix, false)

  predicate IsSentinel(sw: Switch) {
    sw == Dash || sw == Unresolved || sw == ZefixSwitch
  }

  // ---------------------------------------------------------------- shape check

  datatype Shape = WellFormed | Malformed | EmptyField

  /** One field of the shape check; an empty field makes `ss[0]` raise. */
  function FieldShape(ss: string): (r: Shape)
    ensures r == WellFormed <==> IsIntLiteral(ss)
    ensures r == EmptyField <==> ss == []
  {
    if ss == [] then EmptyField
    else if ss[0] == '-' || ss[0] == '+' then (if IsDigits(ss[1..]) then WellFormed else Malformed)
    else if IsDigits(ss) then WellFormed else Malformed
  }

  /** The shape check over all fields in order: the verdict of the first field that fails. */
  function FieldsShape(xx: seq<string>): (r: Shape)
    ensures r == WellFormed <==> forall i :: 0 <= i < |xx| ==> IsIntLiteral(xx[i])
    ensures r == EmptyField <==>
      exists i :: 0 <= i < |xx| && xx[i] == [] && forall j :: 0 <= j < i ==> IsIntLiteral(xx[j])
  {
    if xx == [] then WellFormed
    else
      var rest := FieldsShape(xx[1..]);
      assert forall i :: 1 <= i < |xx| ==> xx[i] == xx[1..][i - 1];
      if FieldShape(xx[0]) != WellFormed then FieldShape(xx[0])
      else
        assert EmptyField == rest ==> exists i :: 0 <= i < |xx| && xx[i] == [] && forall j :: 0 <= j < i ==> IsIntLiteral(xx[j]) by {
          if rest == EmptyField {
            var i :| 0 <= i < |xx[1..]| && xx[1..][i] == [] && forall j :: 0 <= j < i ==> IsIntLiteral(xx[1..][j]);
            assert xx[i + 1] == [] && forall j :: 0 <= j < i + 1 ==> IsIntLiteral(xx[j]);
          }
        }
        rest
  }

  /** `int(f)` of every field. */
  function ParseFields(xx: seq<string>): (f: seq<int>)
    requires forall i :: 0 <= i < |xx| ==> IsIntLiteral(xx[i])
    ensures |f| == |xx| && forall i :: 0 <= i < |xx| ==> f[i] == ParseInt(xx[i])
  {
    if xx == [] then [] else [ParseInt(xx[0])] + ParseFields(xx[1..])
  }

  // ---------------------------------------------------------------- the decoder

  /** getSwitch: the shape check, then the decoding of the eight integers. */
  function GetSwitch(s: string, t: Tables): (r: Decoded)
    ensures |Split(s, ',')| != 8 ==> r == Decoded(Dash, false)
    ensures r.Decoded? && r.unknown ==> r.sw == ZefixSwitch
  {
    var xx := Split(s, ',');
    if |xx| != 8 then Decoded(Dash, false)
    else
      match FieldsShape(xx)
      case EmptyField => Raised
      case Malformed => Decoded(Dash, false)
      case WellFormed => DecodeFields(ParseFields(xx), t)
  }

  /** The eight integers: codes 76-79 of field 7 come first, then field 1 == 0, then field 1. */
  function DecodeFields(f: seq<int>, t: Tables): (r: Decoded)
    requires |f| == 8
    ensures r.Decoded? && !IsSentinel(r.sw) ==> r.sw.proportional == (f[2] == 1)
    ensures r.Decoded? && r.unknown ==> r.sw == ZefixSwitch
  {
    var n1, n7, proport := f[0], f[6], f[2] == 1;
    if n7 == 76 then TimerRef(n1, proport, t)
    else if n7 == 77 then FunctionRef(n1, proport, t.functionlist)
    else if n7 == 78 then ServoRef(n1, proport, t.servolist)
    else if n7 == 79 then FlightModeRef(n1, proport, t)
    else if n1 == 0 then SeventhRef(n7, proport)
    else ControlRef(n1, f[1] == 1, f[5], f[7] == -1, proport, t.swsettings)
  }

  /** Code 76: the timer with raw id n, shown by its 1-based position among the timers; a
      timer without a label is "??", and an id that cannot be indexed, or a labelled timer
      whose id is missing from the timer ids, raises. */
  function TimerRef(n: int, proport: bool, t: Tables): (r: Decoded)
    ensures r.Decoded? ==> !r.unknown
    ensures r.Decoded? && r.sw != Unresolved ==> r.sw.proportional == proport
    ensures At(t.stopwatch, n) == Some("nix") ==> r == Decoded(Unresolved, false)
    ensures r.Raised? <==> At(t.stopwatch, n).None? || (At(t.stopwatch, n) != Some("nix") && Some(n) !in t.stopwatchid)
  {
    match At(t.stopwatch, n)
    case None => Raised
    case Some(lbl) =>
      if lbl == "nix" then Decoded(Unresolved, false)
      else
        match IndexOf(t.stopwatchid, Some(n))
        case None => Raised
        case Some(jj) =>
          Decoded(Plain((if n < 10 then "T0" else "T") + NatToString(jj) + "  (" + lbl + ")", proport), false)
  }

  /** Code 77: a standard function (0-13) by its label, a user function as `U` and its number. */
  function FunctionRef(n: int, proport: bool, functionlist: seq<string>): (r: Decoded)
    ensures r.Decoded? && r.unknown <==> r == Decoded(ZefixSwitch, true)
    ensures r.Decoded? <==> n >= |functionlist| || -|functionlist| <= n
    ensures n >= |functionlist| ==> r == Decoded(ZefixSwitch, true)
    ensures r.Decoded? && r.sw != ZefixSwitch ==> r.sw.proportional == proport
  {
    if n >= |functionlist| then Decoded(ZefixSwitch, true)
    else if n <= 13 then
      match At(functionlist, n)
      case None => Raised
      case Some(lbl) => Decoded(Plain(if lbl != "nix" then lbl else "??", proport), false)
    else
      var lbl := functionlist[n];
      var user := "U" + NatToString(n - 13);
      Decoded(Plain(if lbl == "nix" then user
                    else if lbl == "Butterfly" then "Butterfly"
                    else user + "  (" + lbl + ")", proport), false)
  }

  /** Code 78: servo output `O` and n+1, with the servo's label when it has one. */
  function ServoRef(n: int, proport: bool, servolist: seq<string>): (r: Decoded)
    ensures r.Decoded? <==> Indexable(|servolist|, n + 1)
    ensures r.Decoded? ==> !r.unknown && r.sw.proportional == proport
  {
    match At(servolist, n + 1)
    case None => Raised
    case Some(lbl) =>
      var out := "O" + IntToString(n + 1);
      Decoded(Plain(if lbl != "nix" then out + "  (" + lbl + ")" else out, proport), false)
  }

  /** Code 79: flight mode with id n, numbered by its place in the display sequence. */
  function FlightModeRef(n: int, proport: bool, t: Tables): (r: Decoded)
    ensures r.Decoded? ==> !r.unknown
    ensures r == Decoded(Unresolved, false) <==> Some(n) !in t.flightmoid
    ensures r.Decoded? && r.sw != Unresolved ==> r.sw.proportional == proport
  {
    match IndexOf(t.flightmoid, Some(n))
    case None => Decoded(Unresolved, false)
    case Some(jj) =>
      match IndexOf(t.flightmoseq, Some(n))
      case None => Raised
      case Some(kk) =>
        match At(t.flightmolist, jj)
        case None => Raised
        case Some(lbl) => Decoded(Plain("FM" + NatToString(kk + 1) + "  (" + lbl + ")", proport), false)
  }

  /** Field 1 empty: field 7 indexes the seventh-position tables; negative means unassigned. */
  function SeventhRef(n7: int, proport: bool): (r: Decoded)
    ensures r.Raised? <==> n7 >= |Switches7|
    ensures r.Decoded? && r.unknown <==> 0 <= n7 < |Switches7| && Switches7[n7] == Zefix
    ensures n7 < 0 ==> r == Decoded(Dash, false)
  {
    if n7 >= 0 then
      if n7 >= |Switches7| then Raised
      else if Switches7[n7] == Zefix then Decoded(ZefixSwitch, true)
      else Decoded(Plain(Switches7[n7], proport), false)
    else Decoded(Dash, false)
  }

  /** Where each seventh-position entry comes from: logical switches, voice commands,
      telemetry controls, accelerometers, sequencers, then channels, trims and Lua controls. */
  lemma Switches7At(k: int, proport: bool)
    requires 0 <= k < 130
    ensures |Switches7| == 130
    ensures Switches7[k] == if k < 32 then Log[k] else if k < 48 then Voi[k - 32]
      else if k < 64 then Mx[k - 48] else if k < 80 then Gx[k - 64]
      else if k < 90 then Sq[k - 80] else Others[k - 90]
    ensures SeventhRef(0, proport) == Decoded(Plain("Log1", proport), false)
    ensures SeventhRef(32, proport) == Decoded(Plain("V01", proport), false)
    ensures SeventhRef(80, proport) == Decoded(Plain("Q1", proport), false)
    ensures SeventhRef(127, proport) == Decoded(Plain("Log.MAX", proport), false)
    ensures SeventhRef(24, proport) == Decoded(ZefixSwitch, true)
  {
  }

  /** The percentage annotation of a proportional control. */
  function PercentText(v: int): string {
    IntToString(Percent(v)) + "%"
  }

  /** The position arrow of a switch: down, centre or up by the sign of its value. */
  function Arrow(v: int): string {
    if v < 0 then "↓" else if v == 0 then "—" else "↑"
  }

  /** A genuine control or switch, named by field 1. */
  function ControlRef(n1: int, inverted: bool, val: int, interval: bool, proport: bool,
                      swsettings: seq<int>): (r: Decoded)
    ensures r.Decoded? && r.unknown <==> r == Decoded(ZefixSwitch, true)
    ensures r.Decoded? && r.sw != ZefixSwitch ==> r.sw.proportional == proport
  {
    match At(Switches1, n1)
    case None => Raised
    case Some(name) => Annotate(name, inverted, val, interval, proport, swsettings)
  }

  /** The value annotation of a control (name starting with P) or a switch. */
  function Annotate(name: string, inverted: bool, val: int, interval: bool, proport: bool,
                    swsettings: seq<int>): (r: Decoded)
    requires name != []
    ensures r.Decoded? && r.unknown <==> r == Decoded(ZefixSwitch, true)
    ensures r.Decoded? && r.sw != ZefixSwitch ==> r.sw.proportional == proport
    ensures r.Raised? ==> name in SwList
  {
    if name[0] == 'P' then
      var valstr :=
        if interval then "  " + (if inverted then "≤" else "≥") + " " + PercentText(val)
        else "  " + PercentText(if inverted then -val else val);
      Decoded(Switch(name, name + valstr, name, proport), false)
    else
      match IndexOf(SwList, name)
      case None => Decoded(ZefixSwitch, true)
      case Some(jj) =>
        match At(swsettings, jj)
        case None => Raised
        case Some(valset) =>
          var oriented := if valset == 0 then -val else val;
          var shown := if inverted then -oriented else oriented;
          var valstr := "  " + Arrow(shown);
          Decoded(Switch(name, name + valstr, name + valstr, proport), false)
  }

  // ---------------------------------------------------------------- properties

  /** `str` of every integer. */
  function Texts(f: seq<int>): (r: seq<string>)
    ensures |r| == |f| && forall i :: 0 <= i < |f| ==> r[i] == IntToString(f[i])
  {
    if f == [] then [] else [IntToString(f[0])] + Texts(f[1..])
  }

  /** How the transmitter writes the eight integers. */
  function EncodeSwitch(f: seq<int>): string
    requires |f| == 8
  {
    Join(Texts(f), ',')
  }

  /** The text of eight integers splits into their `str` forms, which pass the shape check
      and parse back to the integers. */
  lemma EncodedFields(f: seq<int>)
    requires |f| == 8
    ensures Split(EncodeSwitch(f), ',') == Texts(f)
    ensures FieldsShape(Texts(f)) == WellFormed && ParseFields(Texts(f)) == f
  {
    var parts := Texts(f);
    forall k | 0 <= k < 8
      ensures ',' !in parts[k]
    {
      if ',' in parts[k] {
        IntLiteralChars(parts[k], ',');
      }
    }
    SplitJoin(parts, ',');
  }

  /** Every eight integers the transmitter writes pass the shape check and decode as
      those integers: the text form and the integers carry the same switch. */
  lemma GetSwitchOfEncoded(f: seq<int>, t: Tables)
    requires |f| == 8
    ensures GetSwitch(EncodeSwitch(f), t) == DecodeFields(f, t)
  {
    EncodedFields(f);
  }

  /** A text that does not split into eight fields, or whose first failing field is not
      empty but is not a signed decimal either, decodes as unassigned. */
  lemma MalformedIsDash(s: string, t: Tables, i: nat)
    requires var xx := Split(s, ',');
      |xx| != 8 || (i < |xx| && xx[i] != [] && !IsIntLiteral(xx[i])
                    && forall j :: 0 <= j < i ==> IsIntLiteral(xx[j]))
    ensures GetSwitch(s, t) == Decoded(Dash, false)
  {
    var xx := Split(s, ',');
    if |xx| == 8 {
      assert !IsIntLiteral(xx[i]);
    }
  }

  /** With eight fields, an empty field before any malformed one makes `ss[0]` raise. */
  lemma EmptyFieldRaises(s: string, t: Tables, i: nat)
    requires var xx := Split(s, ',');
      |xx| == 8 && i < 8 && xx[i] == [] && forall j :: 0 <= j < i ==> IsIntLiteral(xx[j])
    ensures GetSwitch(s, t).Raised?
  {
  }

  /** Codes 76-79 take precedence: the result depends only on fields 1, 3 and 7. */
  lemma ReferencesIgnoreOtherFields(f: seq<int>, g: seq<int>, t: Tables)
    requires |f| == 8 && |g| == 8 && 76 <= f[6] <= 79
    requires f[0] == g[0] && f[2] == g[2] && f[6] == g[6]
    ensures DecodeFields(f, t) == DecodeFields(g, t)
  {
  }

  /** A user function (code 77, n > 13) shows `U` and a number that reads back as n - 13,
      followed by its label in parentheses when it has one, except that Butterfly shows
      alone; a standard one (0-13) shows its own label, or "??" when it is unset. */
  lemma FunctionNumbering(n: int, proport: bool, functionlist: seq<string>)
    requires n < |functionlist|
    ensures 13 < n && functionlist[n] == "nix" ==>
      var r := FunctionRef(n, proport, functionlist);
      r.Decoded? && r.sw.name[0] == 'U' && IsDigits(r.sw.name[1..]) && DigitsValue(r.sw.name[1..]) + 13 == n
    ensures 13 < n && functionlist[n] !in {"nix", "Butterfly"} ==>
      var r := FunctionRef(n, proport, functionlist);
      r.Decoded? && r.sw.name[0] == 'U'
      && (exists k :: 2 <= k <= |r.sw.name| && IsDigits(r.sw.name[1..k]) && DigitsValue(r.sw.name[1..k]) + 13 == n
           && r.sw.name[k..] == "  (" + functionlist[n] + ")")
    ensures 13 < n && functionlist[n] == "Butterfly" ==> FunctionRef(n, proport, functionlist).sw.name == "Butterfly"
    ensures 0 <= n <= 13 ==>
      FunctionRef(n, proport, functionlist).sw.name == if functionlist[n] != "nix" then functionlist[n] else "??"
  {
    if 13 < n {
      var lbl := functionlist[n];
      if lbl == "nix" {
        assert FunctionRef(n, proport, functionlist).sw.name[1..] == NatToString(n - 13);
      } else if lbl != "Butterfly" {
        LabelledUserFunction(n, proport, functionlist);
      }
    }
  }

  /** A labelled user function other than Butterfly: `U`, its number, then its label. */
  lemma LabelledUserFunction(n: int, proport: bool, functionlist: seq<string>)
    requires 13 < n < |functionlist| && functionlist[n] !in {"nix", "Butterfly"}
    ensures var name := FunctionRef(n, proport, functionlist).sw.name;
      name[0] == 'U'
      && (exists k :: 2 <= k <= |name| && IsDigits(name[1..k]) && DigitsValue(name[1..k]) + 13 == n
           && name[k..] == "  (" + functionlist[n] + ")")
  {
    var num := NatToString(n - 13);
    var lbl := functionlist[n];
    var name := "U" + num + "  (" + lbl + ")";
    assert FunctionRef(n, proport, functionlist).sw.name == name;
    Labelled("U", num, lbl);
    assert name[1..1 + |num|] == num;
  }

  /** Code 78 shows the output number n + 1 that reads back as such, then the label. */
  lemma ServoNumbering(n: int, proport: bool, servolist: seq<string>)
    requires 0 <= n + 1 < |servolist|
    ensures var r := ServoRef(n, proport, servolist);
      r.Decoded? && r.sw.name[0] == 'O'
      && (exists k :: 1 <= k <= |r.sw.name| && IsIntLiteral(r.sw.name[1..k]) && ParseInt(r.sw.name[1..k]) == n + 1
           && (servolist[n + 1] != "nix" ==> r.sw.name[k..] == "  (" + servolist[n + 1] + ")"))
  {
    var num := IntToString(n + 1);
    var lbl := servolist[n + 1];
    var name := ServoRef(n, proport, servolist).sw.name;
    Labelled("O", num, lbl);
    var k := 1 + |num|;
    assert name[1..k] == num;
  }

  /** The parts of a reference name: a prefix, a number, and the label in parentheses
      unless it is "nix". */
  lemma Labelled(prefix: string, num: string, lbl: string)
    ensures var out := prefix + num;
      var name := if lbl != "nix" then out + "  (" + lbl + ")" else out;
      name[..|prefix|] == prefix && name[|prefix|..|prefix| + |num|] == num
      && (lbl != "nix" ==> name[|prefix| + |num|..] == "  (" + lbl + ")")
  {
    var out := prefix + num;
    if lbl != "nix" {
      var name := out + "  (" + lbl + ")";
      assert name == out + ("  (" + lbl + ")");
    }
  }

  /** Code 79 numbers a flight mode by its place in the display sequence: `FM` and k means
      the mode stored at position k - 1 of `flightmoseq`. */
  lemma FlightModeNumbering(n: int, proport: bool, t: Tables)
    requires FlightModeRef(n, proport, t).Decoded? && Some(n) in t.flightmoid
    ensures var name := FlightModeRef(n, proport, t).sw.name;
      name[..2] == "FM"
      && (exists k :: 3 <= k <= |name| && IsDigits(name[2..k])
           && 1 <= DigitsValue(name[2..k]) <= |t.flightmoseq|
           && t.flightmoseq[DigitsValue(name[2..k]) - 1] == Some(n))
  {
    var jj := IndexOf(t.flightmoid, Some(n)).value;
    var kk := IndexOf(t.flightmoseq, Some(n)).value;
    var lbl := t.flightmolist[jj];
    var name := FlightModeRef(n, proport, t).sw.name;
    var num := NatToString(kk + 1);
    assert name == "FM" + num + ("  (" + lbl + ")");
    assert name[2..2 + |num|] == num;
  }

  /** Code 76 numbers a timer by its place among the timer ids: `T` and j (zero-padded
      when the raw id is below 10) means the timer stored at position j of `stopwatchid`. */
  lemma TimerNumbering(n: int, proport: bool, t: Tables)
    requires TimerRef(n, proport, t).Decoded? && TimerRef(n, proport, t).sw != Unresolved
    ensures var name := TimerRef(n, proport, t).sw.name;
      var prefix := if n < 10 then "T0" else "T";
      name[..|prefix|] == prefix
      && (exists k :: |prefix| < k <= |name| && IsDigits(name[|prefix|..k])
           && DigitsValue(name[|prefix|..k]) < |t.stopwatchid|
           && t.stopwatchid[DigitsValue(name[|prefix|..k])] == Some(n))
  {
    var jj := IndexOf(t.stopwatchid, Some(n)).value;
    var lbl := t.stopwatch[Slot(|t.stopwatch|, n)];
    var name := TimerRef(n, proport, t).sw.name;
    var prefix := if n < 10 then "T0" else "T";
    var num := NatToString(jj);
    assert name == prefix + num + ("  (" + lbl + ")");
    assert name[|prefix|..|prefix| + |num|] == num;
  }

  /** The annotation of a proportional control that is not an interval: inverting it
      negates the percentage shown, and the third result is the bare name. */
  lemma ControlInversionNegates(name: string, val: int, proport: bool, swsettings: seq<int>)
    requires name != [] && name[0] == 'P'
    ensures var plain := Annotate(name, false, val, false, proport, swsettings);
      var inv := Annotate(name, true, val, false, proport, swsettings);
      plain.Decoded? && inv.Decoded?
      && plain.sw.withValue == name + ("  " + PercentText(val))
      && inv.sw.withValue == name + ("  " + PercentText(-val))
      && Percent(-val) == -Percent(val)
      && plain.sw.withSwitchValue == inv.sw.withSwitchValue == name
  {
    ControlAnnotation(name, false, val, proport, swsettings);
    ControlAnnotation(name, true, val, proport, swsettings);
    PercentOdd(val);
  }

  lemma ControlAnnotation(name: string, inverted: bool, val: int, proport: bool, swsettings: seq<int>)
    requires name != [] && name[0] == 'P'
    ensures Annotate(name, inverted, val, false, proport, swsettings)
         == Decoded(Switch(name, name + ("  " + PercentText(if inverted then -val else val)), name, proport), false)
  {
  }

  /** In interval mode inversion changes only the comparator, never the value. */
  lemma IntervalKeepsValue(name: string, val: int, proport: bool, swsettings: seq<int>)
    requires name != [] && name[0] == 'P'
    ensures var plain := Annotate(name, false, val, true, proport, swsettings);
      var inv := Annotate(name, true, val, true, proport, swsettings);
      plain.Decoded? && inv.Decoded?
      && plain.sw.withValue == name + ("  " + "≥" + " " + PercentText(val))
      && inv.sw.withValue == name + ("  " + "≤" + " " + PercentText(val))
  {
  }

  /** Every name of the switch list is a hardware switch name, starting with S. */
  lemma SwListNames(name: string)
    requires name in SwList
    ensures name != [] && name[0] == 'S'
  {
    assert forall i :: 0 <= i < |SwList| ==> SwList[i] != [] && SwList[i][0] == 'S';
  }

  /** A hardware switch shows the arrow of its value flipped once for a reversed
      orientation setting and once more when inverted, so the value keeps its sign
      exactly when both or neither apply; the third result equals the second. */
  lemma SwitchArrow(name: string, inverted: bool, val: int, interval: bool, proport: bool, swsettings: seq<int>)
    requires name in SwList && |swsettings| == |SwList|
    ensures var r := Annotate(name, inverted, val, interval, proport, swsettings);
      var reversed := swsettings[IndexOf(SwList, name).value] == 0;
      r.Decoded? && !r.unknown
      && r.sw.withValue == name + ("  " + Arrow(if reversed == inverted then val else -val))
      && r.sw.withSwitchValue == r.sw.withValue
  {
    SwListNames(name);
  }

  /** Every timer slot that holds a label has its id among the timer ids, so that
      `stopwatchid.index` in code 76 finds it. */
  predicate TimersConsistent(t: Tables) {
    forall k :: 0 <= k < |t.stopwatch| && t.stopwatch[k] != "nix" ==> Some(k) in t.stopwatchid
  }

  /** Code 76 cannot raise for a timer id within the timer table once the timer tables
      are consistent. */
  lemma TimerRefDefined(n: int, proport: bool, t: Tables)
    requires TimersConsistent(t) && 0 <= n < |t.stopwatch|
    ensures TimerRef(n, proport, t).Decoded?
  {
  }

  /** Every stored flight-mode id appears in the display sequence and has a label slot,
      so that `flightmoseq.index` and `flightmolist[jj]` in code 79 succeed. */
  predicate FlightModesConsistent(t: Tables) {
    forall j :: 0 <= j < |t.flightmoid| && t.flightmoid[j].Some? ==>
      t.flightmoid[j] in t.flightmoseq && j < |t.flightmolist|
  }

  /** Code 79 cannot raise once the flight-mode tables are consistent. */
  lemma FlightModeRefDefined(n: int, proport: bool, t: Tables)
    requires FlightModesConsistent(t)
    ensures FlightModeRef(n, proport, t).Decoded?
  {
    match IndexOf(t.flightmoid, Some(n))
    case None =>
    case Some(jj) =>
      assert t.flightmoid[jj] == Some(n);
  }
}
