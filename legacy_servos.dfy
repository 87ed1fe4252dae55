/** The servos pass of the earlier revisions. It runs three loops. The first marks in
    `servoSonst` the user codes 288-299 that some servo carries. The second replaces each
    mark with the label of function 14 + slot when that function is defined. The third
    writes the yes/no text of each servo's reverse flag, then names every servo with a code
    above 256 into `servolist[Index + 1]`. Unlike the current revision, a user servo whose
    function is unset keeps its own code as its name. Codes past the name table are "???SN"
    in January 2021 and July 2020, and raise in June 2020. */
module LegacyServos {
  import opened PyList
  import opened Text
  import opened Values
  import opened LegacySwitches
  import opened LegacyValues
  import B = Builders

  datatype Revision = January2021 | July2020 | June2020

  /** One entry of the Servos section: the output index and code, and the Servo-Reverse flag. */
  datatype LegacyServo = LegacyServo(record: B.ServoRecord, reverse: int)

  /** The name tables for codes 257 onwards. Unknown codes are written as "?" and the code;
      before 2021 there is only German and Gimbal Y is still unknown. */
  const NamesDe2021: seq<string> := [
    "Querruder1", "Querruder2", "Querruder3", "Querruder4", "Klappe1",
    "Klappe2", "Klappe3", "Klappe4", "Seite1", "Seite2", "Höhe1", "Höhe2",
    "?269", "?270", "Drossel1", "Drossel2", "Drossel3", "Drossel4",
    "Fahrwerk1", "Fahrwerk2", "Fahrwerk3", "Fahrwerk4", "Störkl.1",
    "Störkl.2", "Roll", "Nick", "Pitch", "?284", "Heck", "?286",
    "Gyroempf.", "?288", "?289", "?290", "?291", "?292", "?293", "?294",
    "?295", "?296", "?297", "?298", "?299", "?300", "?301", "?302", "?303",
    "?304", "Gyroempf.2", "Gyroempf.3", "Gimbal R", "Gimbal P", "Gimbal Y",
    "Mode", "?311", "?312", "?313", "?314", "?315", "?316", "?317", "?318",
    "?319", "?320"]
  const NamesEn2021: seq<string> := [
    "Aileron1", "Aileron2", "Aileron3", "Aileron4", "Flap1",
    "Flap2", "Flap3", "Flap4", "Rudder1", "Rudder2", "Elevator1", "Elevator2",
    "?269", "?270", "Throttle1", "Throttle2", "Throttle3", "Throttle4",
    "Gear1", "Gear2", "Gear3", "Gear4", "Airbrake1",
    "Airbrake2", "Roll", "Elevator", "Pitch", "?284", "Yaw", "?286",
    "Gyro sens.", "?288", "?289", "?290", "?291", "?292", "?293", "?294",
    "?295", "?296", "?297", "?298", "?299", "?300", "?301", "?302", "?303",
    "?304", "Gyro sens.2", "Gyro sens.3", "Gimbal R", "Gimbal P", "Gimbal Y",
    "Mode", "?311", "?312", "?313", "?314", "?315", "?316", "?317", "?318",
    "?319", "?320"]
  const Names2020: seq<string> := [
    "Querruder1", "Querruder2", "Querruder3", "Querruder4", "Klappe1",
    "Klappe2", "Klappe3", "Klappe4", "Seite1", "Seite2", "Höhe1", "Höhe2",
    "?269", "?270", "Drossel1", "Drossel2", "Drossel3", "Drossel4",
    "Fahrwerk1", "Fahrwerk2", "Fahrwerk3", "Fahrwerk4", "Störkl.1",
    "Störkl.2", "Roll", "Nick", "Pitch", "?284", "Heck", "?286",
    "Gyroempf.", "?288", "?289", "?290", "?291", "?292", "?293", "?294",
    "?295", "?296", "?297", "?298", "?299", "?300", "?301", "?302", "?303",
    "?304", "Gyroempf.2", "Gyroempf.3", "Gimbal R", "Gimbal P", "?309",
    "Mode", "?311", "?312", "?313", "?314", "?315", "?316", "?317", "?318",
    "?319", "?320"]

  function LegacyNames(rev: Revision, lang: Lang): (names: seq<string>)
    ensures |names| == 64
  {
    if rev != January2021 then Names2020
    else if lang == De then NamesDe2021 else NamesEn2021
  }

  /** The codes of the records, for the first loop. */
  function Records(servos: seq<LegacyServo>): (rs: seq<B.ServoRecord>)
    ensures |rs| == |servos| && forall i :: 0 <= i < |servos| ==> rs[i] == servos[i].record
  {
    seq(|servos|, i requires 0 <= i < |servos| => servos[i].record)
  }

  /** `servoSonst` after the second loop: a claimed slot holds the label of function
      14 + slot, or `str` of its own code when that function is unset; other slots "nix". */
  function LegacyUserNames(marks: seq<bool>, funktionen: seq<string>): (names: seq<string>)
    requires |marks| == B.UserSlots && |funktionen| == B.FunctionSlots
    ensures |names| == B.UserSlots
  {
    seq(B.UserSlots, k requires 0 <= k < B.UserSlots => LegacyUserName(marks[k], funktionen[14 + k], k))
  }

  /** Slot k: "nix" when unclaimed, else the function label, else `str` of the code. */
  function LegacyUserName(mark: bool, name: string, k: nat): string {
    if !mark then "nix" else if name != "nix" then name else NatToString(288 + k)
  }

  /** The name the third loop gives a code above 256, or Raises in June 2020 past the table. */
  function LegacyServoName(c: int, users: seq<string>, rev: Revision, lang: Lang): (r: Named)
    requires c > 256 && |users| == B.UserSlots
    ensures r.Raises? <==> rev == June2020 && c > 320
  {
    var names := LegacyNames(rev, lang);
    if c <= 287 then Named(names[c - 257])
    else if c >= 300 then
      if c - 257 < |names| then Named(names[c - 257])
      else if rev == June2020 then Raises
      else Named("???SN")
    else Named(users[c - 288])
  }

  /** Why one servo makes the third loop raise: its reverse flag is neither 0 nor 1, or it
      has a code above 256 and either its name or its output slot does not exist. */
  predicate Fails(n: nat, s: LegacyServo, users: seq<string>, rev: Revision, lang: Lang)
    requires |users| == B.UserSlots
  {
    JaNein(s.reverse, lang).None?
    || (s.record.code > 256
        && (LegacyServoName(s.record.code, users, rev, lang).Raises? || !Indexable(n, s.record.index + 1)))
  }

  /** The list so far, and whether the loop has raised. */
  datatype Pass = Pass(list: seq<string>, raised: bool)

  /** One servo of the third loop. */
  function ServoStep(list: seq<string>, s: LegacyServo, users: seq<string>, rev: Revision, lang: Lang): (p: Pass)
    requires |users| == B.UserSlots
    ensures |p.list| == |list|
    ensures p.raised <==> Fails(|list|, s, users, rev, lang)
  {
    if JaNein(s.reverse, lang).None? then Pass(list, true)
    else if s.record.code <= 256 then Pass(list, false)
    else
      match LegacyServoName(s.record.code, users, rev, lang)
      case Raises => Pass(list, true)
      case Named(name) =>
        var ind := s.record.index + 1;
        if Indexable(|list|, ind) then Pass(list[Slot(|list|, ind) := name], false) else Pass(list, true)
  }

  /** The third loop over the servos, stopping at the first that raises. */
  function ServosPass(list: seq<string>, servos: seq<LegacyServo>, users: seq<string>, rev: Revision, lang: Lang): (p: Pass)
    requires |users| == B.UserSlots
    ensures |p.list| == |list|
  {
    if servos == [] then Pass(list, false)
    else
      var p := ServosPass(list, servos[..|servos| - 1], users, rev, lang);
      if p.raised then p else ServoStep(p.list, servos[|servos| - 1], users, rev, lang)
  }

  /** One more servo of the third loop. */
  lemma ServosPassNext(list: seq<string>, servos: seq<LegacyServo>, users: seq<string>, rev: Revision, lang: Lang, i: nat)
    requires |users| == B.UserSlots && i < |servos|
    ensures var p := ServosPass(list, servos[..i], users, rev, lang);
      ServosPass(list, servos[..i + 1], users, rev, lang) == if p.raised then p else ServoStep(p.list, servos[i], users, rev, lang)
  {
    assert servos[..i + 1][..i] == servos[..i];
  }

  /** The loop raises exactly when some servo fails. */
  lemma {:induction false} ServosPassRaises(list: seq<string>, servos: seq<LegacyServo>, users: seq<string>, rev: Revision, lang: Lang)
    requires |users| == B.UserSlots
    ensures ServosPass(list, servos, users, rev, lang).raised
        <==> exists j :: 0 <= j < |servos| && Fails(|list|, servos[j], users, rev, lang)
  {
    if servos != [] {
      var front := servos[..|servos| - 1];
      ServosPassRaises(list, front, users, rev, lang);
      if exists j :: 0 <= j < |front| && Fails(|list|, front[j], users, rev, lang) {
        var j :| 0 <= j < |front| && Fails(|list|, front[j], users, rev, lang);
        assert servos[j] == front[j];
      }
      if exists j :: 0 <= j < |servos| && Fails(|list|, servos[j], users, rev, lang) {
        var j :| 0 <= j < |servos| && Fails(|list|, servos[j], users, rev, lang);
        if j < |front| {
          assert front[j] == servos[j];
        }
      }
    }
  }

  /** Once the loop has raised, later servos change nothing. */
  lemma {:induction false} ServosPassStops(list: seq<string>, servos: seq<LegacyServo>, users: seq<string>, rev: Revision, lang: Lang, i: nat)
    requires |users| == B.UserSlots && i <= |servos|
    requires ServosPass(list, servos[..i], users, rev, lang).raised
    ensures ServosPass(list, servos, users, rev, lang) == ServosPass(list, servos[..i], users, rev, lang)
    decreases |servos|
  {
    if i < |servos| {
      var front := servos[..|servos| - 1];
      assert front[..i] == servos[..i];
      ServosPassStops(list, front, users, rev, lang, i);
    } else {
      assert servos[..i] == servos;
    }
  }

  /** Without a raise, a servo with a code above 256 whose slot no later such servo
      addresses ends up with its name in that slot. */
  lemma {:induction false} ServosPassNames(list: seq<string>, servos: seq<LegacyServo>, users: seq<string>, rev: Revision, lang: Lang, j: nat)
    requires |users| == B.UserSlots && j < |servos| && servos[j].record.code > 256
    requires !ServosPass(list, servos, users, rev, lang).raised
    requires forall j' :: j < j' < |servos| && servos[j'].record.code > 256 ==>
      Indexable(|list|, servos[j'].record.index + 1) && Indexable(|list|, servos[j].record.index + 1) ==>
      Slot(|list|, servos[j'].record.index + 1) != Slot(|list|, servos[j].record.index + 1)
    ensures Indexable(|list|, servos[j].record.index + 1)
    ensures LegacyServoName(servos[j].record.code, users, rev, lang).Named?
    ensures var s := servos[j].record;
      ServosPass(list, servos, users, rev, lang).list[Slot(|list|, s.index + 1)]
        == LegacyServoName(s.code, users, rev, lang).text
    decreases |servos|
  {
    var front := servos[..|servos| - 1];
    var p := ServosPass(list, front, users, rev, lang);
    assert !p.raised;
    if j < |servos| - 1 {
      assert front[j] == servos[j];
      ServosPassNames(list, front, users, rev, lang, j);
    }
  }

  /** Without a raise, a slot that no servo with a code above 256 addresses keeps its value. */
  lemma {:induction false} ServosPassUntouched(list: seq<string>, servos: seq<LegacyServo>, users: seq<string>, rev: Revision, lang: Lang, k: nat)
    requires |users| == B.UserSlots && k < |list|
    requires !ServosPass(list, servos, users, rev, lang).raised
    requires forall j :: 0 <= j < |servos| && servos[j].record.code > 256 && Indexable(|list|, servos[j].record.index + 1) ==>
      Slot(|list|, servos[j].record.index + 1) != k
    ensures ServosPass(list, servos, users, rev, lang).list[k] == list[k]
    decreases |servos|
  {
    if servos != [] {
      var front := servos[..|servos| - 1];
      assert !ServosPass(list, front, users, rev, lang).raised;
      ServosPassUntouched(list, front, users, rev, lang, k);
    }
  }

  /** A user servo is named after function 14 + (code - 288) when that function is defined,
      and keeps its code otherwise; the current revision shows "nix" in the second case. */
  lemma UserServoNameLegacy(servos: seq<LegacyServo>, funktionen: seq<string>, rev: Revision, lang: Lang, j: nat)
    requires |funktionen| == B.FunctionSlots && j < |servos| && B.UserCode(servos[j].record.code)
    ensures var c := servos[j].record.code;
      var users := LegacyUserNames(B.Marks(Records(servos)), funktionen);
      var current := B.ServoName(c, B.UserNames(B.Marks(Records(servos)), funktionen), lang);
      LegacyServoName(c, users, rev, lang)
        == Named(if funktionen[14 + c - 288] != "nix" then funktionen[14 + c - 288] else NatToString(c))
      && (funktionen[14 + c - 288] != "nix" ==> current == funktionen[14 + c - 288])
      && (funktionen[14 + c - 288] == "nix" ==> current == "nix")
  {
    var c := servos[j].record.code;
    var m := B.Marks(Records(servos));
    assert Records(servos)[j] == servos[j].record;
    B.MarkedBy(Records(servos), j);
    LegacyUserNamesAt(m, funktionen, c - 288);
    B.UserNamesAt(m, funktionen, c - 288);
    B.UserCodeName(c, B.UserNames(m, funktionen), lang);
  }

  /** One slot of `servoSonst` after the second loop. */
  lemma LegacyUserNamesAt(marks: seq<bool>, funktionen: seq<string>, k: nat)
    requires |marks| == B.UserSlots && |funktionen| == B.FunctionSlots && k < B.UserSlots
    ensures LegacyUserNames(marks, funktionen)[k] == LegacyUserName(marks[k], funktionen[14 + k], k)
  {
  }

  /** Codes past the table: "???SN" before June 2020's successors, a raise in June 2020,
      where the current revision counts them as unknown data. */
  lemma ServoNamesBeyondTable(c: int, users: seq<string>, lang: Lang)
    requires c > 320 && |users| == B.UserSlots
    ensures LegacyServoName(c, users, January2021, lang) == Named("???SN")
    ensures LegacyServoName(c, users, July2020, lang) == Named("???SN")
    ensures LegacyServoName(c, users, June2020, lang) == Raises
    ensures B.ServoName(c, users, lang) == Zefix
  {
  }

  /** The servos pass: the three loops, the third stopping where Python raises. */
  method Servos(servolist: array<string>, servos: seq<LegacyServo>, funktionen: seq<string>, rev: Revision, lang: Lang)
    returns (raised: bool)
    requires |funktionen| == B.FunctionSlots
    modifies servolist
    ensures var p := ServosPass(old(servolist[..]), servos, LegacyUserNames(B.Marks(Records(servos)), funktionen), rev, lang);
      servolist[..] == p.list && raised == p.raised
  {
    var marks := ClaimUserCodes(servos);
    var users := NameUserCodes(marks, servos, funktionen);
    raised := NameServos(servolist, servos, users, rev, lang);
  }

  /** Slot k of `servoSonst` after the first loop: `str` of its code when claimed. */
  function Claimed(mark: bool, k: nat): (r: string)
    ensures r != "nix" <==> mark
  {
    if mark then
      var r := NatToString(288 + k);
      assert r[0] != 'n';
      r
    else "nix"
  }

  /** `servoSonst` after the first loop, for the given marks. */
  function ClaimedSlots(marks: seq<bool>): (r: seq<string>)
    requires |marks| == B.UserSlots
    ensures |r| == B.UserSlots
  {
    seq(B.UserSlots, k requires 0 <= k < B.UserSlots => Claimed(marks[k], k))
  }

  /** Claiming slot k writes `str` of its code there and changes no other slot. */
  lemma ClaimSlot(marks: seq<bool>, k: nat)
    requires |marks| == B.UserSlots && k < B.UserSlots
    ensures ClaimedSlots(marks[k := true]) == ClaimedSlots(marks)[k := NatToString(288 + k)]
  {
  }

  /** The marks after one more servo of the first loop. */
  lemma MarksNext(servos: seq<LegacyServo>, i: nat)
    requires i < |servos|
    ensures var m := B.Marks(Records(servos[..i]));
      var c := servos[i].record.code;
      B.Marks(Records(servos[..i + 1])) == if B.UserCode(c) then m[c - 288 := true] else m
  {
    var rs := Records(servos[..i + 1]);
    assert rs[..i] == Records(servos[..i]);
    assert rs[i] == servos[i].record;
  }

  /** First loop: `servoSonst[c - 288] = c` for every user code c; the model keeps `str(c)`,
      the only form in which the code is used later. */
  method ClaimUserCodes(servos: seq<LegacyServo>) returns (other: seq<string>)
    ensures other == ClaimedSlots(B.Marks(Records(servos)))
  {
    other := seq(B.UserSlots, _ => "nix");
    var i := 0;
    while i < |servos|
      invariant 0 <= i <= |servos|
      invariant other == ClaimedSlots(B.Marks(Records(servos[..i])))
    {
      var c := servos[i].record.code;
      MarksNext(servos, i);
      if 288 <= c < 300 {
        ClaimSlot(B.Marks(Records(servos[..i])), c - 288);
        other := other[c - 288 := NatToString(c)];
      }
      i := i + 1;
    }
    assert servos[..i] == servos;
  }

  /** Second loop: a claimed slot takes the label of function 14 + slot when it is set. */
  method NameUserCodes(other: seq<string>, ghost servos: seq<LegacyServo>, funktionen: seq<string>) returns (users: seq<string>)
    requires |funktionen| == B.FunctionSlots && |other| == B.UserSlots
    requires other == ClaimedSlots(B.Marks(Records(servos)))
    ensures users == LegacyUserNames(B.Marks(Records(servos)), funktionen)
  {
    ghost var marks := B.Marks(Records(servos));
    users := other;
    var ind := 13;
    for ii := 0 to B.UserSlots
      invariant ind == 13 + ii && |users| == B.UserSlots
      invariant forall k :: 0 <= k < ii ==> users[k] == LegacyUserName(marks[k], funktionen[14 + k], k)
      invariant forall k :: ii <= k < B.UserSlots ==> users[k] == other[k]
    {
      ind := ind + 1;
      if users[ii] != "nix" {
        if funktionen[ind] != "nix" {
          users := users[ii := funktionen[ind]];
        }
      }
    }
  }

  /** Third loop: one servo after the other, stopping at the first that raises. */
  method NameServos(servolist: array<string>, servos: seq<LegacyServo>, users: seq<string>, rev: Revision, lang: Lang)
    returns (raised: bool)
    requires |users| == B.UserSlots
    modifies servolist
    ensures var p := ServosPass(old(servolist[..]), servos, users, rev, lang);
      servolist[..] == p.list && raised == p.raised
  {
    ghost var start := servolist[..];
    ghost var pass := Pass(start, false);
    var i := 0;
    while i < |servos|
      invariant 0 <= i <= |servos|
      invariant pass == ServosPass(start, servos[..i], users, rev, lang)
      invariant servolist[..] == pass.list && !pass.raised
    {
      ServosPassNext(start, servos, users, rev, lang, i);
      var failed := NameOne(servolist, servos[i], users, rev, lang);
      pass := ServoStep(pass.list, servos[i], users, rev, lang);
      if failed {
        ServosPassStops(start, servos, users, rev, lang, i + 1);
        return true;
      }
      i := i + 1;
    }
    assert servos[..i] == servos;
    return false;
  }

  /** One servo: the reverse flag's text, then the name at `servolist[Index + 1]`. */
  method NameOne(servolist: array<string>, s: LegacyServo, users: seq<string>, rev: Revision, lang: Lang)
    returns (raised: bool)
    requires |users| == B.UserSlots
    modifies servolist
    ensures var p := ServoStep(old(servolist[..]), s, users, rev, lang);
      servolist[..] == p.list && raised == p.raised
  {
    var reverse := JaNein(s.reverse, lang);
    if reverse.None? {
      return true;
    }
    var c := s.record.code;
    if c <= 256 {
      return false;
    }
    var names := LegacyNames(rev, lang);
    var name;
    if c <= 287 {
      name := names[c - 257];
    } else if c >= 300 {
      if c - 257 < |names| {
        name := names[c - 257];
      } else if rev == June2020 {
        return true;
      } else {
        name := "???SN";
      }
    } else {
      name := users[c - 288];
    }
    assert LegacyServoName(c, users, rev, lang) == Named(name);
    ghost var before := servolist[..];
    var ind := s.record.index + 1;
    if !Indexable(servolist.Length, ind) {
      return true;
    }
    servolist[Slot(servolist.Length, ind)] := name;
    assert servolist[..] == before[Slot(|before|, ind) := name];
    return false;
  }
}
