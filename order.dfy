/** The order in which the extraction runs its passes over a model file. Each pass may build
    some of the shared tables, read some of them, and decode switches. Decoding reads every
    table a switch reference resolves against. A pass reads early when it needs a table that
    no earlier pass has built; it then sees the table as the reset left it. */
module PassOrder {

  /** The shared tables, as the passes build them. VirtualFunctions are the entries that
      functions2 adds to the function table (Butterfly, and Brk and Flp where missing);
      ModelTime is the model time and reset mode that common stores among the timers in
      January 2021. */
  datatype Table =
    | TypeVector | Functions | VirtualFunctions | Servos | FlightModes | Timers
    | ModelTime | Sensors | LuaIds | Accelerometer

  datatype Pass = Pass(builds: set<Table>, uses: set<Table>, decodes: bool)

  /** What a pass needs: what it reads itself, and the switch tables when it decodes. */
  function Needs(p: Pass, switchTables: set<Table>): set<Table> {
    p.uses + if p.decodes then switchTables else {}
  }

  /** The tables the first i passes build. */
  function BuiltBy(passes: seq<Pass>, i: nat): set<Table>
    requires i <= |passes|
  {
    if i == 0 then {} else BuiltBy(passes, i - 1) + passes[i - 1].builds
  }

  /** The tables pass i needs that no earlier pass has built. */
  function Missing(passes: seq<Pass>, i: nat, switchTables: set<Table>): set<Table>
    requires i < |passes|
  {
    Needs(passes[i], switchTables) - BuiltBy(passes, i)
  }

  /** A pass that reads early, and the tables it finds unbuilt. */
  datatype Early = Early(index: nat, missing: set<Table>)

  /** The early reads among the first n passes, in order. */
  function EarlyReads(passes: seq<Pass>, n: nat, switchTables: set<Table>): seq<Early>
    requires n <= |passes|
  {
    if n == 0 then []
    else
      var missing := Missing(passes, n - 1, switchTables);
      EarlyReads(passes, n - 1, switchTables)
        + if missing == {} then [] else [Early(n - 1, missing)]
  }

  /** Every early read reported is real: the pass needs exactly those tables and no earlier
      pass built them. */
  lemma {:induction false} EarlyReadsSound(passes: seq<Pass>, n: nat, switchTables: set<Table>, e: Early)
    requires n <= |passes| && e in EarlyReads(passes, n, switchTables)
    ensures e.index < n && e.missing != {}
    ensures e.missing == Missing(passes, e.index, switchTables)
  {
    if e in EarlyReads(passes, n - 1, switchTables) {
      EarlyReadsSound(passes, n - 1, switchTables, e);
    }
  }

  /** Every early read is reported: a needed table that is not built yet appears among the
      missing tables of that pass. */
  lemma {:induction false} EarlyReadsComplete(passes: seq<Pass>, n: nat, switchTables: set<Table>, i: nat, t: Table)
    requires i < n <= |passes|
    requires t in Missing(passes, i, switchTables)
    ensures exists e :: e in EarlyReads(passes, n, switchTables) && e.index == i && t in e.missing
  {
    if i < n - 1 {
      EarlyReadsComplete(passes, n - 1, switchTables, i, t);
      var e :| e in EarlyReads(passes, n - 1, switchTables) && e.index == i && t in e.missing;
      assert e in EarlyReads(passes, n, switchTables);
    } else {
      var missing := Missing(passes, i, switchTables);
      assert EarlyReads(passes, n, switchTables)[|EarlyReads(passes, n, switchTables)| - 1]
        == Early(i, missing);
    }
  }

  /** A pass is listed among the early reads exactly when it misses a table. */
  lemma EarlyReadsExactly(passes: seq<Pass>, switchTables: set<Table>, k: nat)
    requires k < |passes|
    ensures (exists e :: e in EarlyReads(passes, |passes|, switchTables) && e.index == k)
      <==> Missing(passes, k, switchTables) != {}
  {
    if Missing(passes, k, switchTables) != {} {
      var t :| t in Missing(passes, k, switchTables);
      EarlyReadsComplete(passes, |passes|, switchTables, k, t);
    } else if e :| e in EarlyReads(passes, |passes|, switchTables) && e.index == k {
      EarlyReadsSound(passes, |passes|, switchTables, e);
    }
  }

  /** The early reads, as the passes run one after the other. */
  method CheckOrder(passes: seq<Pass>, switchTables: set<Table>) returns (early: seq<Early>)
    ensures early == EarlyReads(passes, |passes|, switchTables)
  {
    var built: set<Table> := {};
    early := [];
    for i := 0 to |passes|
      invariant built == BuiltBy(passes, i)
      invariant early == EarlyReads(passes, i, switchTables)
    {
      var p := passes[i];
      var missing := p.uses + (if p.decodes then switchTables else {}) - built;
      if missing != {} {
        early := early + [Early(i, missing)];
      }
      built := built + p.builds;
    }
  }

  // ---------------------------------------------------------------- the current revision

  /** What the current getSwitch resolves references against (the switch settings come
      from the options file, read before any model). */
  const SwitchTables2023: set<Table> := {Functions, VirtualFunctions, Servos, FlightModes, Timers}

  /** extractDict's passes in call order: what each builds, what it reads itself, and
      whether it decodes switches. */
  function DictPass(i: nat): Pass {
    match i
    case 0 => Pass({Accelerometer}, {}, true)  // globalstr
    case 1 => Pass({TypeVector}, {}, false)  // typespecific
    case 2 => Pass({Functions}, {}, false)  // functions1
    case 3 => Pass({Servos}, {Functions}, false)  // servos1
    case 4 => Pass({FlightModes}, {}, false)  // flightmodes1
    case 5 => Pass({Timers}, {}, false)  // timers1
    case 6 => Pass({}, {}, true)  // common
    case 7 => Pass({}, {}, false)  // controls
    case 8 => Pass({}, {}, true)  // ctrlsound
    case 9 => Pass({VirtualFunctions}, {TypeVector, Functions}, true)  // functions2
    case 10 => Pass({}, {Servos}, false)  // servos2
    case 11 => Pass({}, {Functions, FlightModes}, true)  // flightmodes2
    case 12 => Pass({}, {TypeVector, Functions, FlightModes}, true)  // functionspecs
    case 13 => Pass({}, {TypeVector}, true)  // flightmodes3
    case 14 => Pass({}, {TypeVector, FlightModes}, true)  // snaprolls
    case 15 => Pass({}, {TypeVector, Functions, FlightModes}, true)  // mixesmain
    case 16 => Pass({}, {Servos}, true)  // sequence
    case 17 => Pass({}, {}, true)  // timers2
    case 18 => Pass({}, {}, true)  // logswitch
    case 19 => Pass({}, {}, true)  // eventsounds
    case 20 => Pass({}, {Timers}, true)  // voice
    case 21 => Pass({Sensors}, {}, false)  // telemdetect
    case 22 => Pass({}, {Sensors, Timers}, true)  // telemvoice
    case 23 => Pass({}, {Sensors}, true)  // telctrl
    case 24 => Pass({LuaIds}, {}, false)  // lua1
    case 25 => Pass({}, {FlightModes, LuaIds, Sensors, Timers}, false)  // displayedtelemetry
    case 26 => Pass({}, {Sensors}, true)  // vario
    case 27 => Pass({}, {Sensors}, true)  // alarms
    case 28 => Pass({}, {Accelerometer}, false)  // accel
    case 29 => Pass({LuaIds}, {LuaIds, Sensors}, true)  // lua2
    case _ => Pass({}, {}, false)
  }

  /** extractDict's passes, as a list. */
  function ExtractDict2023(): seq<Pass> {
    seq(30, i requires 0 <= i => DictPass(i))
  }

  /** The pass that first builds each table; 30, past the last pass, for a table no pass
      builds. */
  function DictBuilder(t: Table): nat {
    match t
    case Accelerometer => 0
    case TypeVector => 1
    case Functions => 2
    case Servos => 3
    case FlightModes => 4
    case Timers => 5
    case VirtualFunctions => 9
    case Sensors => 21
    case LuaIds => 24
    case ModelTime => 30
  }

  lemma DictBuilderFirst(k: nat, t: Table)
    requires k < 30
    ensures t in DictPass(k).builds ==> DictBuilder(t) <= k
    ensures DictBuilder(t) == k ==> t in DictPass(k).builds
  {
  }

  /** A table is built before pass k exactly when its first builder comes before k. */
  lemma {:induction false} DictBuiltBy(k: nat, t: Table)
    requires k <= 30
    ensures t in BuiltBy(ExtractDict2023(), k) <==> DictBuilder(t) < k
  {
    if k > 0 {
      DictBuiltBy(k - 1, t);
      DictBuilderFirst(k - 1, t);
    }
  }

  /** What each pass of extractDict finds unbuilt: globalstr every switch table (it decodes
      the Rx-900Sw switch before any table exists); common, ctrlsound and functions2 the
      virtual functions, which functions2 adds only after decoding; every other pass
      nothing. */
  function DictEarly(k: nat): set<Table> {
    if k == 0 then SwitchTables2023
    else if k == 6 || k == 8 || k == 9 then {VirtualFunctions}
    else {}
  }

  /** Pass by pass, what it needs and is built only later is what it reads early. */
  lemma DictNeedsLater(k: nat, t: Table)
    requires k < 30
    ensures t in Needs(DictPass(k), SwitchTables2023) && DictBuilder(t) >= k <==> t in DictEarly(k)
  {
  }

  lemma ExtractDictOrder(k: nat)
    requires k < |ExtractDict2023()|
    ensures Missing(ExtractDict2023(), k, SwitchTables2023) == DictEarly(k)
  {
    forall t ensures t in Missing(ExtractDict2023(), k, SwitchTables2023) <==> t in DictEarly(k) {
      DictBuiltBy(k, t);
      DictNeedsLater(k, t);
    }
  }

  // ---------------------------------------------------------------- January 2021

  /** In January 2021 getSwitch reads only the function table (code 77). */
  const SwitchTables2021: set<Table> := {Functions}

  /** extract's passes in call order, as for extractDict. */
  function ExtractPass(i: nat): Pass {
    match i
    case 0 => Pass({}, {}, true)  // globalstr
    case 1 => Pass({TypeVector}, {}, false)  // typespecific
    case 2 => Pass({ModelTime}, {}, true)  // common
    case 3 => Pass({}, {}, false)  // controls
    case 4 => Pass({}, {}, true)  // ctrlsound
    case 5 => Pass({Functions}, {}, true)  // functions
    case 6 => Pass({Servos}, {Functions}, false)  // servos
    case 7 => Pass({FlightModes}, {TypeVector, Functions}, true)  // flightmodes
    case 8 => Pass({}, {TypeVector, Functions, FlightModes}, true)  // functionspecs
    case 9 => Pass({}, {TypeVector, Functions, FlightModes}, true)  // mixesmain
    case 10 => Pass({}, {TypeVector, FlightModes}, true)  // snaprolls
    case 11 => Pass({}, {Servos}, true)  // sequence
    case 12 => Pass({Timers}, {ModelTime}, true)  // timers
    case 13 => Pass({}, {}, true)  // logswitch
    case 14 => Pass({}, {Timers}, true)  // voice
    case 15 => Pass({Sensors}, {}, false)  // telemdetect
    case 16 => Pass({}, {Sensors}, true)  // telemvoice
    case 17 => Pass({}, {Sensors}, true)  // telctrl
    case 18 => Pass({LuaIds}, {Sensors}, true)  // lua
    case 19 => Pass({}, {FlightModes, LuaIds, Sensors, Timers}, false)  // displayedtelemetry
    case 20 => Pass({}, {}, true)  // eventsounds
    case 21 => Pass({}, {Sensors}, true)  // vario
    case 22 => Pass({}, {Sensors}, true)  // alarms
    case _ => Pass({}, {}, false)
  }

  /** extract's passes, as a list. */
  function Extract2021(): seq<Pass> {
    seq(23, i requires 0 <= i => ExtractPass(i))
  }

  /** The pass that first builds each table; 23, past the last pass, for a table no pass
      builds. */
  function ExtractBuilder(t: Table): nat {
    match t
    case TypeVector => 1
    case ModelTime => 2
    case Functions => 5
    case Servos => 6
    case FlightModes => 7
    case Timers => 12
    case Sensors => 15
    case LuaIds => 18
    case VirtualFunctions => 23
    case Accelerometer => 23
  }

  lemma ExtractBuilderFirst(k: nat, t: Table)
    requires k < 23
    ensures t in ExtractPass(k).builds ==> ExtractBuilder(t) <= k
    ensures ExtractBuilder(t) == k ==> t in ExtractPass(k).builds
  {
  }

  /** A table is built before pass k exactly when its first builder comes before k. */
  lemma {:induction false} ExtractBuiltBy(k: nat, t: Table)
    requires k <= 23
    ensures t in BuiltBy(Extract2021(), k) <==> ExtractBuilder(t) < k
  {
    if k > 0 {
      ExtractBuiltBy(k - 1, t);
      ExtractBuilderFirst(k - 1, t);
    }
  }

  /** What each pass of the January 2021 extract finds unbuilt: every pass that decodes
      before functions has filled the function table (functions included, which decodes
      its switches before storing the labels) misses it; every other pass nothing. */
  function ExtractEarly(k: nat): set<Table> {
    if k == 0 || k == 2 || k == 4 || k == 5 then {Functions} else {}
  }

  /** Pass by pass, what it needs and is built only later is what it reads early. */
  lemma ExtractNeedsLater(k: nat, t: Table)
    requires k < 23
    ensures t in Needs(ExtractPass(k), SwitchTables2021) && ExtractBuilder(t) >= k <==> t in ExtractEarly(k)
  {
  }

  lemma ExtractOrder2021(k: nat)
    requires k < |Extract2021()|
    ensures Missing(Extract2021(), k, SwitchTables2021) == ExtractEarly(k)
  {
    forall t ensures t in Missing(Extract2021(), k, SwitchTables2021) <==> t in ExtractEarly(k) {
      ExtractBuiltBy(k, t);
      ExtractNeedsLater(k, t);
    }
  }
}
