/** What the table builders of the current revision compute, as functions of the data of
    one model file: the servo names of servos1, the stored ids and the display rotation of
    flightmodes1, the timer tables of timers1, the Lua ids of lua1, the virtual functions
    functions2 adds and the switch orientations extractOpt keeps. The class in Extraction
    runs the loops and is proved against these. */
module Builders {
  import opened PyList
  import opened Text
  import opened Values
  import opened Switches

  /** Table sizes as the extraction resets them. */
  const FunctionSlots := 51
  const ServoSlots := 25
  const FlightModeSlots := 11
  /** Flight-mode label slots: the eleventh entry of `flightmolist` holds the last index. */
  const FlightModeLabels := 10
  const TimerSlots := 11
  const LuaSlots := 31
  /** Slots of non-standard servo names; codes 288-299 use the first twelve. */
  const UserSlots := 16

  // ---------------------------------------------------------------- servos1

  /** One entry of the Servos section: output index and servo code. */
  datatype ServoRecord = ServoRecord(index: int, code: int)

  /** The transmitter's servo names for codes 257 onwards. */
  const ServoNamesDe: seq<string> := [
    "Querruder1", "Querruder2", "Querruder3", "Querruder4", "Klappe1", "Klappe2", "Klappe3", "Klappe4",
    "Seite1", "Seite2", "Höhe1", "Höhe2", Zefix, Zefix, "Drossel1", "Drossel2", "Drossel3", "Drossel4",
    "Fahrwerk1", "Fahrwerk2", "Fahrwerk3", "Fahrwerk4", "Störkl.1", "Störkl.2", "Roll", "Nick", "Pitch",
    Zefix, "Heck", Zefix, "Gyroempf.", Zefix, Zefix, Zefix, Zefix, Zefix, Zefix, Zefix, Zefix, Zefix,
    Zefix, Zefix, Zefix, Zefix, Zefix, Zefix, Zefix, Zefix, "Gyroempf.2", "Gyroempf.3", "Gimbal R",
    "Gimbal P", "Gimbal Y", "Mode", Zefix, Zefix, Zefix, Zefix, Zefix, Zefix, Zefix, Zefix, Zefix, Zefix]
  const ServoNamesEn: seq<string> := [
    "Aileron1", "Aileron2", "Aileron3", "Aileron4", "Flap1", "Flap2", "Flap3", "Flap4",
    "Rudder1", "Rudder2", "Elevator1", "Elevator2", Zefix, Zefix, "Throttle1", "Throttle2", "Throttle3", "Throttle4",
    "Gear1", "Gear2", "Gear3", "Gear4", "Airbrake1", "Airbrake2", "Roll", "Elevator", "Pitch",
    Zefix, "Yaw", Zefix, "Gyro sens.", Zefix, Zefix, Zefix, Zefix, Zefix, Zefix, Zefix, Zefix, Zefix,
    Zefix, Zefix, Zefix, Zefix, Zefix, Zefix, Zefix, Zefix, "Gyro sens.2", "Gyro sens.3", "Gimbal R",
    "Gimbal P", "Gimbal Y", "Mode", Zefix, Zefix, Zefix, Zefix, Zefix, Zefix, Zefix, Zefix, Zefix, Zefix]

  function ServoNames(lang: Lang): (names: seq<string>)
    ensures |names| == 64
  {
    if lang == De then ServoNamesDe else ServoNamesEn
  }

  /** A code for a user-named servo. */
  predicate UserCode(c: int) {
    288 <= c < 300
  }

  /** First pass: the user-name slots some servo's code claims. */
  function Marks(servos: seq<ServoRecord>): (m: seq<bool>)
    ensures |m| == UserSlots
  {
    if servos == [] then seq(UserSlots, _ => false)
    else
      var m := Marks(servos[..|servos| - 1]);
      var c := servos[|servos| - 1].code;
      if UserCode(c) then m[c - 288 := true] else m
  }

  /** A slot is claimed exactly when some servo carries its user code. */
  lemma {:induction false} MarksIff(servos: seq<ServoRecord>, k: nat)
    requires k < UserSlots
    ensures Marks(servos)[k] <==> exists j :: 0 <= j < |servos| && UserCode(servos[j].code) && servos[j].code - 288 == k
  {
    if servos != [] {
      var front := servos[..|servos| - 1];
      MarksIff(front, k);
      if exists j :: 0 <= j < |front| && UserCode(front[j].code) && front[j].code - 288 == k {
        var j :| 0 <= j < |front| && UserCode(front[j].code) && front[j].code - 288 == k;
        assert servos[j] == front[j];
      }
      if exists j :: 0 <= j < |servos| && UserCode(servos[j].code) && servos[j].code - 288 == k {
        var j :| 0 <= j < |servos| && UserCode(servos[j].code) && servos[j].code - 288 == k;
        if j < |front| {
          assert front[j] == servos[j];
        }
      }
    }
  }

  /** Second pass: a claimed slot takes the label of function 14 + slot when that function
      is defined, every other slot reads "nix". */
  function UserNames(marks: seq<bool>, functionlist: seq<string>): (names: seq<string>)
    requires |marks| == UserSlots && |functionlist| == FunctionSlots
    ensures |names| == UserSlots
  {
    seq(UserSlots, k requires 0 <= k < UserSlots =>
      if marks[k] && functionlist[14 + k] != "nix" then functionlist[14 + k] else "nix")
  }

  /** The name servos1 gives a servo code above 256. */
  function ServoName(c: int, users: seq<string>, lang: Lang): string
    requires c > 256 && |users| == UserSlots
  {
    if c <= 287 then ServoNames(lang)[c - 257]
    else if c >= 300 then (if c - 257 < 64 then ServoNames(lang)[c - 257] else Zefix)
    else users[c - 288]
  }

  /** Third pass: the slot updates of servolist, one per servo with a code above 256,
      at output index + 1. */
  function ServoUpdates(servos: seq<ServoRecord>, users: seq<string>, lang: Lang): (u: seq<(int, string)>)
    requires |users| == UserSlots
    ensures |u| <= |servos|
  {
    if servos == [] then []
    else
      var u := ServoUpdates(servos[..|servos| - 1], users, lang);
      var s := servos[|servos| - 1];
      if s.code > 256 then u + [(s.index + 1, ServoName(s.code, users, lang))] else u
  }

  /** How many names of `u` are the unknown marker (each bumps the counter once). */
  function CountUnknownNames(u: seq<(int, string)>): nat {
    if u == [] then 0 else CountUnknownNames(u[..|u| - 1]) + (if u[|u| - 1].1 == Zefix then 1 else 0)
  }

  /** A servo with a user code whose slot is claimed (MarkedBy: every such servo claims its
      own) is named after the function 14 + (code - 288) when that function is defined,
      and "nix" otherwise. */
  lemma UserServoName(marks: seq<bool>, functionlist: seq<string>, lang: Lang, c: int)
    requires |marks| == UserSlots && |functionlist| == FunctionSlots && UserCode(c) && marks[c - 288]
    ensures ServoName(c, UserNames(marks, functionlist), lang)
      == if functionlist[14 + c - 288] != "nix" then functionlist[14 + c - 288] else "nix"
  {
  }

  /** The user-name slot a servo claims holds its function's label, or "nix". */
  lemma UserSlotName(servos: seq<ServoRecord>, functionlist: seq<string>, j: nat)
    requires |functionlist| == FunctionSlots && j < |servos| && UserCode(servos[j].code)
    ensures var k := servos[j].code - 288;
      UserNames(Marks(servos), functionlist)[k] == if functionlist[14 + k] != "nix" then functionlist[14 + k] else "nix"
  {
    var m := Marks(servos);
    MarkedBy(servos, j);
    UserNamesAt(m, functionlist, servos[j].code - 288);
  }

  /** The slot of a servo with a user code is claimed. */
  lemma {:induction false} MarkedBy(servos: seq<ServoRecord>, j: nat)
    requires j < |servos| && UserCode(servos[j].code)
    ensures Marks(servos)[servos[j].code - 288]
  {
    var front := servos[..|servos| - 1];
    if j < |front| {
      MarkedBy(front, j);
      assert front[j] == servos[j];
    }
  }

  /** One slot of the user names. */
  lemma UserNamesAt(marks: seq<bool>, functionlist: seq<string>, k: nat)
    requires |marks| == UserSlots && |functionlist| == FunctionSlots && k < UserSlots
    ensures UserNames(marks, functionlist)[k] == if marks[k] && functionlist[14 + k] != "nix" then functionlist[14 + k] else "nix"
  {
  }

  /** A user code takes its user-name slot. */
  lemma UserCodeName(c: int, users: seq<string>, lang: Lang)
    requires UserCode(c) && |users| == UserSlots
    ensures ServoName(c, users, lang) == users[c - 288]
  {
  }

  /** Codes past the name table are unknown; codes 257-287 and 300-320 take the table's name. */
  lemma StandardServoNames(c: int, users: seq<string>, lang: Lang)
    requires c > 256 && |users| == UserSlots && !UserCode(c)
    ensures c > 320 ==> ServoName(c, users, lang) == Zefix
    ensures c <= 320 ==> ServoName(c, users, lang) == ServoNames(lang)[c - 257]
  {
  }

  /** The servo behind update i: every update targets the output of a servo with a code
      above 256. */
  function UpdateSource(servos: seq<ServoRecord>, users: seq<string>, lang: Lang, i: nat): (j: nat)
    requires |users| == UserSlots && i < |ServoUpdates(servos, users, lang)|
    ensures j < |servos| && servos[j].code > 256
    ensures ServoUpdates(servos, users, lang)[i].0 == servos[j].index + 1
    decreases |servos|
  {
    var front := servos[..|servos| - 1];
    if i < |ServoUpdates(front, users, lang)| then
      var j := UpdateSource(front, users, lang, i);
      assert servos[j] == front[j];
      j
    else |servos| - 1
  }

  /** The updates of two runs of servos are those of each, in order. */
  lemma {:induction false} ServoUpdatesAppend(a: seq<ServoRecord>, b: seq<ServoRecord>, users: seq<string>, lang: Lang)
    requires |users| == UserSlots
    ensures ServoUpdates(a + b, users, lang) == ServoUpdates(a, users, lang) + ServoUpdates(b, users, lang)
    decreases |b|
  {
    if b == [] {
      assert a + b == a;
    } else {
      var front := b[..|b| - 1];
      assert (a + b)[..|a + b| - 1] == a + front && (a + b)[|a + b| - 1] == b[|b| - 1];
      ServoUpdatesAppend(a, front, users, lang);
      ServoUpdatesLast(a + b, users, lang);
      ServoUpdatesLast(b, users, lang);
      Reassociate(ServoUpdates(a, users, lang), ServoUpdates(front, users, lang), LastUpdate(b[|b| - 1], users, lang));
    }
  }

  /** What the last servo of a run adds to its updates. */
  function LastUpdate(s: ServoRecord, users: seq<string>, lang: Lang): seq<(int, string)>
    requires |users| == UserSlots
  {
    if s.code > 256 then [(s.index + 1, ServoName(s.code, users, lang))] else []
  }

  lemma ServoUpdatesLast(servos: seq<ServoRecord>, users: seq<string>, lang: Lang)
    requires |users| == UserSlots && servos != []
    ensures ServoUpdates(servos, users, lang)
         == ServoUpdates(servos[..|servos| - 1], users, lang) + LastUpdate(servos[|servos| - 1], users, lang)
  {
  }

  lemma Reassociate<T>(p: seq<T>, q: seq<T>, x: seq<T>)
    ensures (p + q) + x == p + (q + x)
  {
  }

  /** The third pass, one servo further. */
  lemma ServoUpdatesStep(servos: seq<ServoRecord>, users: seq<string>, lang: Lang, j: nat)
    requires |users| == UserSlots && j < |servos|
    ensures var s := servos[j];
      ServoUpdates(servos[..j + 1], users, lang)
      == ServoUpdates(servos[..j], users, lang) + if s.code > 256 then [(s.index + 1, ServoName(s.code, users, lang))] else []
  {
    assert servos[..j + 1][..j] == servos[..j];
  }

  /** One more servo name: it lands in its slot and counts once if it is the marker. */
  lemma NamedSnoc(s: seq<string>, u: seq<(int, string)>, ind: int, name: string)
    requires AllIndexable(|s|, u) && Indexable(|s|, ind)
    ensures AllIndexable(|s|, u + [(ind, name)])
    ensures Assign(s, u + [(ind, name)]) == Assign(s, u)[Slot(|s|, ind) := name]
    ensures CountUnknownNames(u + [(ind, name)]) == CountUnknownNames(u) + if name == Zefix then 1 else 0
  {
    var v := u + [(ind, name)];
    assert v[..|v| - 1] == u;
  }

  /** A servo whose output slot cannot be indexed makes the whole third pass fail. */
  lemma ServoUpdatesRaise(servos: seq<ServoRecord>, users: seq<string>, lang: Lang, j: nat)
    requires |users| == UserSlots && j < |servos| && servos[j].code > 256
    requires !Indexable(ServoSlots, servos[j].index + 1)
    ensures !AllIndexable(ServoSlots, ServoUpdates(servos, users, lang))
  {
    var v := ServoUpdates(servos[..j + 1], users, lang);
    ServoUpdatesStep(servos, users, lang, j);
    ServoUpdatesAppend(servos[..j + 1], servos[j + 1..], users, lang);
    assert servos[..j + 1] + servos[j + 1..] == servos;
    assert ServoUpdates(servos, users, lang)[|v| - 1] == v[|v| - 1];
  }

  /** A servolist slot that no servo with a code above 256 addresses keeps its value. */
  lemma {:induction false} ServoSlotUntouched(servolist: seq<string>, servos: seq<ServoRecord>, users: seq<string>, lang: Lang, k: nat)
    requires |users| == UserSlots && k < |servolist|
    requires AllIndexable(|servolist|, ServoUpdates(servos, users, lang))
    requires forall j :: 0 <= j < |servos| && servos[j].code > 256 && Indexable(|servolist|, servos[j].index + 1)
               ==> Slot(|servolist|, servos[j].index + 1) != k
    ensures Assign(servolist, ServoUpdates(servos, users, lang))[k] == servolist[k]
  {
    if servos != [] {
      var front := servos[..|servos| - 1];
      var s := servos[|servos| - 1];
      var u := ServoUpdates(front, users, lang);
      if s.code > 256 {
        var x := (s.index + 1, ServoName(s.code, users, lang));
        IndexableFront(|servolist|, u, x);
        NamedSnoc(servolist, u, x.0, x.1);
      }
      forall j | 0 <= j < |front| && front[j].code > 256 && Indexable(|servolist|, front[j].index + 1)
        ensures Slot(|servolist|, front[j].index + 1) != k
      {
        assert front[j] == servos[j];
      }
      ServoSlotUntouched(servolist, front, users, lang, k);
    }
  }

  /** The updates before the last one can all be indexed when all of them can. */
  lemma IndexableFront<T>(n: nat, u: seq<(int, T)>, x: (int, T))
    requires AllIndexable(n, u + [x])
    ensures AllIndexable(n, u) && Indexable(n, x.0)
  {
    assert forall i :: 0 <= i < |u| ==> (u + [x])[i] == u[i];
    assert (u + [x])[|u|] == x;
  }

  // ---------------------------------------------------------------- flightmodes1

  /** `flightmolist` after storing the labels: the eleventh label, if any, is overwritten
      by the last index and so is not kept. */
  function StoredLabels(labels: seq<string>, modes: seq<(int, string)>): (r: seq<string>)
    requires |labels| == FlightModeLabels
    ensures |r| == FlightModeLabels
  {
    seq(FlightModeLabels, i requires 0 <= i < FlightModeLabels => if i < |modes| then modes[i].1 else labels[i])
  }

  function StoredIds(ids: seq<Option<int>>, modes: seq<(int, string)>): (r: seq<Option<int>>)
    requires |ids| == FlightModeSlots
    ensures |r| == FlightModeSlots
  {
    seq(FlightModeSlots, i requires 0 <= i < FlightModeSlots => if i < |modes| then Some(modes[i].0) else ids[i])
  }

  /** The display sequence: the ids of modes 1..n-1 move one place down and the default
      mode 0 goes last. With no modes, Python's `flightmoseq[-1]` puts `flightmoid[0]`
      into the last slot. */
  function Rotation(order: seq<Option<int>>, ids: seq<Option<int>>, n: nat): (r: seq<Option<int>>)
    requires |order| == FlightModeSlots && |ids| == FlightModeSlots && n <= FlightModeSlots
    ensures |r| == FlightModeSlots
  {
    seq(FlightModeSlots, i requires 0 <= i < FlightModeSlots =>
      if i + 1 < n then ids[i + 1] else if i == Slot(FlightModeSlots, n - 1) then ids[0] else order[i])
  }

  /** Storing mode i: its label (below the eleventh) and its id go to place i. */
  lemma StoredStep(labels: seq<string>, ids: seq<Option<int>>, modes: seq<(int, string)>, i: nat)
    requires |labels| == FlightModeLabels && |ids| == FlightModeSlots && i < |modes| && i < FlightModeSlots
    ensures StoredLabels(labels, modes[..i + 1])
         == if i < FlightModeLabels then StoredLabels(labels, modes[..i])[i := modes[i].1] else StoredLabels(labels, modes[..i])
    ensures StoredIds(ids, modes[..i + 1]) == StoredIds(ids, modes[..i])[i := Some(modes[i].0)]
  {
  }

  /** The display sequence once modes 1..n-1 have moved down: the default mode goes to the
      last place (for n = 0, the last slot). */
  lemma RotationFinish(order: seq<Option<int>>, ids: seq<Option<int>>, n: nat, moved: seq<Option<int>>)
    requires |order| == FlightModeSlots && |ids| == FlightModeSlots && n <= FlightModeSlots && |moved| == FlightModeSlots
    requires forall k :: 0 <= k < FlightModeSlots ==> moved[k] == if k + 1 < n then ids[k + 1] else order[k]
    ensures moved[Slot(FlightModeSlots, n - 1) := ids[0]] == Rotation(order, ids, n)
  {
  }

  /** The first n places of the display sequence are a permutation of the first n ids. */
  lemma RotationPermutes(order: seq<Option<int>>, ids: seq<Option<int>>, n: nat)
    requires |order| == FlightModeSlots && |ids| == FlightModeSlots && 1 <= n <= FlightModeSlots
    ensures multiset(Rotation(order, ids, n)[..n]) == multiset(ids[..n])
  {
    var r := Rotation(order, ids, n);
    forall i | 0 <= i < n ensures r[i] == (ids[1..n] + [ids[0]])[i] {
      RotationAt(order, ids, n, i);
    }
    assert r[..n] == ids[1..n] + [ids[0]];
    assert ids[..n] == [ids[0]] + ids[1..n];
  }

  /** The mode stored at position p >= 1 is displayed p-th, the default mode n-th. */
  lemma RotationNumbering(order: seq<Option<int>>, ids: seq<Option<int>>, n: nat, p: nat)
    requires |order| == FlightModeSlots && |ids| == FlightModeSlots && 1 <= n <= FlightModeSlots && p < n
    ensures Rotation(order, ids, n)[if p == 0 then n - 1 else p - 1] == ids[p]
  {
    RotationAt(order, ids, n, if p == 0 then n - 1 else p - 1);
  }

  lemma RotationAt(order: seq<Option<int>>, ids: seq<Option<int>>, n: nat, i: nat)
    requires |order| == FlightModeSlots && |ids| == FlightModeSlots && 1 <= n <= FlightModeSlots && i < n
    ensures Rotation(order, ids, n)[i] == if i + 1 < n then ids[i + 1] else ids[0]
  {
    assert Slot(FlightModeSlots, n - 1) == n - 1;
  }

  /** With distinct ids, mode p is found at its own place in `flightmoid` and, in the
      display sequence, at place p - 1 (the default mode at the last place). */
  lemma ModeIndices(order: seq<Option<int>>, ids0: seq<Option<int>>, modes: seq<(int, string)>, p: nat)
    requires |order| == FlightModeSlots && |ids0| == FlightModeSlots
    requires |modes| < FlightModeSlots && p < |modes|
    requires forall i, i' :: 0 <= i < i' < |modes| ==> modes[i].0 != modes[i'].0
    ensures IndexOf(StoredIds(ids0, modes), Some(modes[p].0)) == Some(p)
    ensures IndexOf(Rotation(order, StoredIds(ids0, modes), |modes|), Some(modes[p].0))
      == Some(if p == 0 then |modes| - 1 else p - 1)
  {
    var ids := StoredIds(ids0, modes);
    var x := Some(modes[p].0);
    var n := |modes|;
    IndexOfAt(ids, x, p);
    var q := if p == 0 then n - 1 else p - 1;
    RotationNumbering(order, ids, n, p);
    forall i | 0 <= i < q
      ensures Rotation(order, ids, n)[i] != x
    {
      RotationAt(order, ids, n, i);
    }
    IndexOfAt(Rotation(order, ids, n), x, q);
  }

  // ---------------------------------------------------------------- timers1

  /** `stopwatchid` after timers1: the j-th timer's id at position j + 1. */
  function StoredTimerIds(ids: seq<Option<int>>, timers: seq<(int, string)>): (r: seq<Option<int>>)
    requires |ids| == TimerSlots
    ensures |r| == TimerSlots
  {
    seq(TimerSlots, i requires 0 <= i < TimerSlots => if 1 <= i <= |timers| then Some(timers[i - 1].0) else ids[i])
  }

  // ---------------------------------------------------------------- lua1, functions2, extractOpt

  /** `luaid` after lua1: the j-th app id at position j + 1. */
  function StoredLua(luaid: seq<int>, apps: seq<int>): (r: seq<int>)
    requires |luaid| == LuaSlots
    ensures |r| == LuaSlots
  {
    seq(LuaSlots, i requires 0 <= i < LuaSlots => if 1 <= i <= |apps| then apps[i - 1] else luaid[i])
  }

  /** functions2, table part: with at least two ailerons the transmitter adds the virtual
      function 31 Butterfly and fills the Brk and Flp slots 5 and 6 when they are free. */
  function WithButterfly(functionlist: seq<string>, ailerons: int): (r: seq<string>)
    requires |functionlist| == FunctionSlots
    ensures |r| == FunctionSlots
    ensures ailerons < 2 ==> r == functionlist
    ensures ailerons >= 2 ==>
      (r[31] == "Butterfly"
       && r[5] == (if functionlist[5] == "nix" then "Brk" else functionlist[5])
       && r[6] == (if functionlist[6] == "nix" then "Flp" else functionlist[6])
       && forall k :: 0 <= k < FunctionSlots && k !in {5, 6, 31} ==> r[k] == functionlist[k])
  {
    if ailerons < 2 then functionlist
    else
      var f := functionlist[31 := "Butterfly"];
      var f := if f[5] == "nix" then f[5 := "Brk"] else f;
      if f[6] == "nix" then f[6 := "Flp"] else f
  }

  /** extractOpt: the switch orientations to store, as updates of `swsettings`; entries
      for unknown switches or with a value other than 0 or 1 are dropped. */
  function SettingUpdates(entries: seq<(string, int)>): (u: seq<(int, int)>)
    ensures forall i :: 0 <= i < |u| ==> 0 <= u[i].0 < |SwList| && u[i].1 in {0, 1}
  {
    if entries == [] then []
    else
      var u := SettingUpdates(entries[..|entries| - 1]);
      var e := entries[|entries| - 1];
      if e.0 in SwList && e.1 in {0, 1} then u + [(IndexOf(SwList, e.0).value, e.1)] else u
  }

  /** extractOpt, one entry further. */
  lemma SettingStep(settings: seq<int>, entries: seq<(string, int)>, i: nat)
    requires |settings| == |SwList| && i < |entries|
    ensures AllIndexable(|settings|, SettingUpdates(entries[..i])) && AllIndexable(|settings|, SettingUpdates(entries[..i + 1]))
    ensures var (name, value) := entries[i];
      var before := Assign(settings, SettingUpdates(entries[..i]));
      Assign(settings, SettingUpdates(entries[..i + 1]))
      == if name in SwList && value in {0, 1} then before[IndexOf(SwList, name).value := value] else before
  {
    var u := SettingUpdates(entries[..i]);
    var e := entries[i];
    assert entries[..i + 1][..i] == entries[..i];
    assert AllIndexable(|settings|, u);
    if e.0 in SwList && e.1 in {0, 1} {
      var x := (IndexOf(SwList, e.0).value, e.1);
      assert SettingUpdates(entries[..i + 1]) == u + [x];
      AssignSnoc(settings, u, x);
    } else {
      assert SettingUpdates(entries[..i + 1]) == u;
    }
  }

  /** extractOpt's loop: each entry naming a listed switch with a 0/1 value stores that
      value at the switch's place; the others are dropped. */
  method Orientations(settings: seq<int>, entries: seq<(string, int)>) returns (r: seq<int>)
    requires |settings| == |SwList|
    ensures AllIndexable(|settings|, SettingUpdates(entries))
    ensures r == Assign(settings, SettingUpdates(entries))
  {
    r := settings;
    var i := 0;
    while i < |entries|
      invariant 0 <= i <= |entries|
      invariant AllIndexable(|settings|, SettingUpdates(entries[..i]))
      invariant r == Assign(settings, SettingUpdates(entries[..i]))
    {
      SettingStep(settings, entries, i);
      var name, value := entries[i].0, entries[i].1;
      if name in SwList && value in {0, 1} {
        var jj := IndexOf(SwList, name).value;
        r := r[jj := value];
      }
      assert r == Assign(settings, SettingUpdates(entries[..i + 1]));
      i := i + 1;
    }
    assert entries[..i] == entries;
  }

  /** Stored orientations stay 0 or 1. */
  lemma {:induction false} SettingsStayBinary(settings: seq<int>, u: seq<(int, int)>)
    requires forall k :: 0 <= k < |settings| ==> settings[k] in {0, 1}
    requires AllIndexable(|settings|, u) && forall i :: 0 <= i < |u| ==> u[i].1 in {0, 1}
    ensures forall k :: 0 <= k < |settings| ==> Assign(settings, u)[k] in {0, 1}
    decreases |u|
  {
    if u != [] {
      SettingsStayBinary(settings, u[..|u| - 1]);
    }
  }
}
