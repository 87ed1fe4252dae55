/** getSwitch of the three earlier revisions. Each returns one name instead of the four
    results of the current decoder. jemoview-2021-01-16.py applies the current shape check and
    resolves codes 76-79 of field 7 from the raw id alone (only code 77 reads a table).
    jemoview.py has the same shape check and no references. jemoview-2020-06-11.py has no
    shape check, reads field 0 and, only when that is 0, field 6, and uses the oldest
    table layout. */
module LegacySwitches {
  import opened PyList
  import opened Text
  import Switches

  /** A name, or Raises where Python raises (IndexError, ValueError). */
  datatype Named = Raises | Named(text: string)

  /** `table[i]`, with Python's negative indices and IndexError. */
  function Lookup(table: seq<string>, i: int): (r: Named)
    ensures r.Named? <==> Indexable(|table|, i)
    ensures 0 <= i < |table| ==> r == Named(table[i])
  {
    match At(table, i)
    case None => Raises
    case Some(x) => Named(x)
  }

  // ---------------------------------------------------------------- tables

  /** Seventh position 0-31 in 2021 and July 2020: unknown entries are named by number. */
  const LogNumbered: seq<string> :=
    ["Log1", "Log2", "Log3", "Log4", "Log5", "Log6", "Log7", "Log8", "Log9",
     "Log10", "Log11", "Log12", "Log13", "Log14", "Log15", "Log16", "Log17",
     "Log18", "Log19", "Log20", "Log21", "Log22", "Log23", "Log24", "?01",
     "?02", "?03", "?04", "?05", "?06", "?07", "?08"]
  /** Seventh position 32-47 in 2021 and July 2020. */
  const VoiNumbered: seq<string> :=
    ["V01", "V02", "V03", "V04", "V05", "V06", "V07", "V08", "V09", "V10",
     "V11", "V12", "V13", "V14", "V15", "?24"]
  /** Seventh position 64-79 in 2021: 76-79 are the reference codes, never looked up. */
  const Gx2021: seq<string> :=
    ["GX", "GY", "GZ", "G/L", "G/R", "GXL", "GXR", "GHi", "?36", "?37",
     "?38", "?39", "Txy", "Fxy", "Oxy", "FMx"]
  /** Seventh position 64-79 before 2021: 76-79 are placeholders. */
  const GxNumbered: seq<string> :=
    ["GX", "GY", "GZ", "G/L", "G/R", "GXL", "GXR", "GHi", "?36", "?37",
     "?38", "?39", "?40", "?41", "?42", "?43"]
  /** Seventh position 90-129 in 2021. */
  const Others2021: seq<string> :=
    ["CH1", "CH2", "CH3", "CH4", "CH5", "CH6", "CH7", "CH8", "?99", "?100",
     "?101", "?102", "?103", "?104", "?105", "?106", "Tr1", "Tr2", "Tr3",
     "Tr4", "Tr5", "Tr6", "?113", "?114", "?115", "?116", "C01", "C02",
     "C03", "C04", "?121", "?122", "?123", "?124", "?125", "?126", "?127",
     "Log.MAX", "?129", "?130"]
  /** Seventh position 90-129 in July 2020: as in 2021, without Log.MAX. */
  const OthersJuly2020: seq<string> :=
    ["CH1", "CH2", "CH3", "CH4", "CH5", "CH6", "CH7", "CH8", "?99", "?100",
     "?101", "?102", "?103", "?104", "?105", "?106", "Tr1", "Tr2", "Tr3",
     "Tr4", "Tr5", "Tr6", "?113", "?114", "?115", "?116", "C01", "C02",
     "C03", "C04", "?121", "?122", "?123", "?124", "?125", "?126", "?127",
     "?128", "?129", "?130"]

  const Switches7For2021: seq<string> :=
    LogNumbered + VoiNumbered + Switches.Mx + Gx2021 + Switches.Sq + Others2021
  const Switches7July2020: seq<string> :=
    LogNumbered + VoiNumbered + Switches.Mx + GxNumbered + Switches.Sq + OthersJuly2020

  /** First position in June 2020: SM-SP directly after SL, P9 and P10 not yet known. */
  const Switches1June2020: seq<string> :=
    ["nix", "P1", "P2", "P4", "P3", "P5", "P6", "P7", "P8", "SA", "SB",
     "SC", "SD", "SE", "SF", "SG", "SH", "SI", "SJ", "SK", "SL", "SM", "SN",
     "SO", "SP", "?P9", "?P10"]
  /** Seventh position 0-23 in June 2020: logical switches only. */
  const LogJune2020: seq<string> :=
    ["Log1", "Log2", "Log3", "Log4", "Log5", "Log6", "Log7", "Log8", "Log9",
     "Log10", "Log11", "Log12", "Log13", "Log14", "Log15", "Log16", "Log17",
     "Log18", "Log19", "Log20", "Log21", "Log22", "Log23", "Log24"]
  /** Seventh position 24-47 in June 2020: not yet identified. */
  const UnknownJune2020: seq<string> :=
    ["?01", "?02", "?03", "?04", "?05", "?06", "?07", "?08", "?09", "?10",
     "?11", "?12", "?13", "?14", "?15", "?16", "?17", "?18", "?19", "?20",
     "?21", "?22", "?23", "?24"]
  /** Seventh position 90-129 in June 2020: only C01-C04 identified. */
  const OthersJune2020: seq<string> :=
    ["?91", "?92", "?93", "?94", "?95", "?96", "?97", "?98", "?99", "?100",
     "?101", "?102", "?103", "?104", "?105", "?106", "?107", "?108", "?109",
     "?110", "?111", "?112", "?113", "?114", "?115", "?116", "C01", "C02",
     "C03", "C04", "?121", "?122", "?123", "?124", "?125", "?126", "?127",
     "?128", "?129", "?130"]
  const Switches7June2020: seq<string> :=
    LogJune2020 + UnknownJune2020 + Switches.Mx + GxNumbered + Switches.Sq + OthersJune2020

  /** Where each seventh-position entry comes from, revision by revision. */
  lemma Switches7At(k: int)
    requires 0 <= k < 130
    ensures Switches7For2021[k] == if k < 32 then LogNumbered[k] else if k < 48 then VoiNumbered[k - 32]
      else if k < 64 then Switches.Mx[k - 48] else if k < 80 then Gx2021[k - 64]
      else if k < 90 then Switches.Sq[k - 80] else Others2021[k - 90]
    ensures Switches7July2020[k] == if k < 32 then LogNumbered[k] else if k < 48 then VoiNumbered[k - 32]
      else if k < 64 then Switches.Mx[k - 48] else if k < 80 then GxNumbered[k - 64]
      else if k < 90 then Switches.Sq[k - 80] else OthersJuly2020[k - 90]
    ensures Switches7June2020[k] == if k < 24 then LogJune2020[k] else if k < 48 then UnknownJune2020[k - 24]
      else if k < 64 then Switches.Mx[k - 48] else if k < 80 then GxNumbered[k - 64]
      else if k < 90 then Switches.Sq[k - 80] else OthersJune2020[k - 90]
  {
  }

  /** The segments the revisions share. */
  lemma SharedSegments()
    ensures Gx2021[..12] == GxNumbered[..12]
    ensures Others2021[..37] == OthersJuly2020[..37] && Others2021[38..] == OthersJuly2020[38..]
    ensures LogNumbered[..24] == LogJune2020
    ensures OthersJune2020[26..] == OthersJuly2020[26..]
  {
  }

  // ---------------------------------------------------------------- January 2021

  /** The shape check shared with the current revision, then the decoding of the integers. */
  function GetSwitch2021(s: string, funktionen: seq<string>): (r: Named)
    ensures |Split(s, ',')| != 8 ==> r == Named("-")
    ensures r.Raises? ==> |Split(s, ',')| == 8
  {
    var xx := Split(s, ',');
    if |xx| != 8 then Named("-")
    else
      match Switches.FieldsShape(xx)
      case EmptyField => Raises
      case Malformed => Named("-")
      case WellFormed => Decode2021(Switches.ParseFields(xx), funktionen)
  }

  /** Codes 76-79 first, shown from the raw id; then field 1 == 0; then field 1. */
  function Decode2021(f: seq<int>, funktionen: seq<string>): (r: Named)
    requires |f| == 8
    ensures r.Raises? <==>
      if f[6] == 77 then !Indexable(|funktionen|, f[0])
      else if 76 <= f[6] <= 79 then false
      else if f[0] == 0 then f[6] >= |Switches7For2021|
      else !Indexable(|Switches.Switches1|, f[0])
  {
    var n1, n7 := f[0], f[6];
    if n7 == 76 then Named((if n1 < 10 then "T0" else "T") + IntToString(n1))
    else if n7 == 77 then Lookup(funktionen, n1)
    else if n7 == 78 then Named("O" + IntToString(n1 + 1))
    else if n7 == 79 then Named("FM" + IntToString(n1 - 1))
    else if n1 == 0 then (if n7 >= 0 then Lookup(Switches7For2021, n7) else Named("-"))
    else Lookup(Switches.Switches1, n1)
  }

  /** The number a timer name of code 76 shows, read back from the text. */
  function TimerNumber(name: string): int
    requires |name| >= 2
  {
    if name[1] == '0' && |name| > 2 && IsIntLiteral(name[2..]) then ParseInt(name[2..])
    else if IsIntLiteral(name[1..]) then ParseInt(name[1..])
    else -1
  }

  /** A timer of code 76 shows its raw id, so distinct non-negative ids show distinct names. */
  lemma TimerName2021(f: seq<int>, funktionen: seq<string>)
    requires |f| == 8 && f[6] == 76 && f[0] >= 0
    ensures var r := Decode2021(f, funktionen);
      r.Named? && |r.text| >= 2 && r.text[0] == 'T' && TimerNumber(r.text) == f[0]
  {
    var n := f[0];
    var digits := NatToString(n);
    if n < 10 {
      assert ("T0" + digits)[2..] == digits;
    } else {
      assert ("T" + digits)[1..] == digits;
      assert digits[0] != '0';
    }
  }

  /** Codes 76, 78 and 79 never read a table: the function labels do not matter. */
  lemma References2021IgnoreFunctions(f: seq<int>, a: seq<string>, b: seq<string>)
    requires |f| == 8 && f[6] in {76, 78, 79}
    ensures Decode2021(f, a) == Decode2021(f, b)
  {
  }

  /** Code 78 shows the 1-based output and code 79 the raw id less one; both read back. */
  lemma ServoAndFlightModeNumbers2021(f: seq<int>, funktionen: seq<string>)
    requires |f| == 8 && (f[6] == 78 || f[6] == 79)
    ensures var r := Decode2021(f, funktionen);
      var k := if f[6] == 78 then 1 else 2;
      r.Named? && |r.text| >= k && IsIntLiteral(r.text[k..])
      && ParseInt(r.text[k..]) == if f[6] == 78 then f[0] + 1 else f[0] - 1
  {
    if f[6] == 78 {
      assert ("O" + IntToString(f[0] + 1))[1..] == IntToString(f[0] + 1);
    } else {
      assert ("FM" + IntToString(f[0] - 1))[2..] == IntToString(f[0] - 1);
    }
  }

  /** Every eight integers the transmitter writes decode as those integers. */
  lemma GetSwitch2021OfEncoded(f: seq<int>, funktionen: seq<string>)
    requires |f| == 8
    ensures GetSwitch2021(Switches.EncodeSwitch(f), funktionen) == Decode2021(f, funktionen)
  {
    Switches.EncodedFields(f);
  }

  // ---------------------------------------------------------------- July 2020 (jemoview.py)

  function GetSwitchJuly2020(s: string): (r: Named)
    ensures |Split(s, ',')| != 8 ==> r == Named("-")
    ensures r.Raises? ==> |Split(s, ',')| == 8
  {
    var xx := Split(s, ',');
    if |xx| != 8 then Named("-")
    else
      match Switches.FieldsShape(xx)
      case EmptyField => Raises
      case Malformed => Named("-")
      case WellFormed => DecodeJuly2020(Switches.ParseFields(xx))
  }

  /** No reference codes: field 1 == 0 selects the seventh position, else field 1. */
  function DecodeJuly2020(f: seq<int>): (r: Named)
    requires |f| == 8
    ensures r.Raises? <==>
      if f[0] == 0 then f[6] >= |Switches7July2020| else !Indexable(|Switches.Switches1|, f[0])
  {
    var n1 := f[0];
    if n1 == 0 then
      var n7 := f[6];
      if n7 >= 0 then Lookup(Switches7July2020, n7) else Named("-")
    else Lookup(Switches.Switches1, n1)
  }

  /** Codes 76-79 with field 1 == 0 are only the placeholders ?40-?43. */
  lemma NoReferencesJuly2020(f: seq<int>)
    requires |f| == 8 && f[0] == 0 && 76 <= f[6] <= 79
    ensures DecodeJuly2020(f) == Named("?" + NatToString(f[6] - 36))
  {
    Switches7At(f[6]);
    Placeholders(f[6] - 64);
  }

  /** The last four accelerometer entries before 2021 are ?40 to ?43. */
  lemma Placeholders(i: int)
    requires 12 <= i < 16
    ensures GxNumbered[i] == "?" + NatToString(i + 28)
  {
    assert NatToString(4) == "4";
    if i == 12 {
      assert NatToString(0) == "0";
    } else if i == 13 {
      assert NatToString(1) == "1";
    } else if i == 14 {
      assert NatToString(2) == "2";
    } else {
      assert NatToString(3) == "3";
    }
  }

  /** Where 2021 does not resolve a reference and the seventh position is not 127
      (Log.MAX, new in 2021), both revisions decode alike. */
  lemma July2020Agrees2021(f: seq<int>, funktionen: seq<string>)
    requires |f| == 8 && !(76 <= f[6] <= 79) && !(f[0] == 0 && f[6] == 127)
    ensures DecodeJuly2020(f) == Decode2021(f, funktionen)
  {
    if f[0] == 0 && 0 <= f[6] < 130 {
      Switches7Agree2021(f[6]);
    }
  }

  /** The seventh-position entries July 2020 shares with 2021. */
  lemma Switches7Agree2021(k: int)
    requires 0 <= k < 130 && !(76 <= k <= 79) && k != 127
    ensures Switches7For2021[k] == Switches7July2020[k]
  {
    Switches7At(k);
    SharedSegments();
    if 64 <= k < 76 {
      assert Gx2021[k - 64] == Gx2021[..12][k - 64];
      assert GxNumbered[k - 64] == GxNumbered[..12][k - 64];
    } else if 90 <= k < 127 {
      assert Others2021[k - 90] == Others2021[..37][k - 90];
      assert OthersJuly2020[k - 90] == OthersJuly2020[..37][k - 90];
    } else if 128 <= k {
      assert Others2021[k - 90] == Others2021[38..][k - 128];
      assert OthersJuly2020[k - 90] == OthersJuly2020[38..][k - 128];
    }
  }

  lemma GetSwitchJuly2020OfEncoded(f: seq<int>)
    requires |f| == 8
    ensures GetSwitchJuly2020(Switches.EncodeSwitch(f)) == DecodeJuly2020(f)
  {
    Switches.EncodedFields(f);
  }

  /** The shape check of 2021 and July 2020: too few or too many fields, or a first failing
      field that is not empty, decode as "-"; an empty field first raises. */
  lemma LegacyShapeCheck(s: string, funktionen: seq<string>, i: nat)
    requires var xx := Split(s, ',');
      |xx| != 8 || (i < |xx| && !IsIntLiteral(xx[i]) && forall j :: 0 <= j < i ==> IsIntLiteral(xx[j]))
    ensures var xx := Split(s, ',');
      if |xx| == 8 && xx[i] == [] then GetSwitch2021(s, funktionen) == Raises && GetSwitchJuly2020(s) == Raises
      else GetSwitch2021(s, funktionen) == Named("-") && GetSwitchJuly2020(s) == Named("-")
  {
    var xx := Split(s, ',');
    if |xx| == 8 {
      assert !IsIntLiteral(xx[i]);
    }
  }

  // ---------------------------------------------------------------- June 2020

  /** No shape check: `int()` of field 0, and of field 6 only when field 0 is 0. A field
      `int()` refuses raises, and so does a missing field 6. */
  function GetSwitchJune2020(s: string): (r: Named)
    ensures r.Named? ==> IsIntLiteral(Split(s, ',')[0])
  {
    var xx := Split(s, ',');
    if !IsIntLiteral(xx[0]) then Raises
    else
      var n1 := ParseInt(xx[0]);
      if n1 != 0 then Lookup(Switches1June2020, n1)
      else if |xx| < 7 || !IsIntLiteral(xx[6]) then Raises
      else
        var n7 := ParseInt(xx[6]);
        if n7 >= 0 then Lookup(Switches7June2020, n7) else Named("nix")
  }

  /** The oldest decoding of the integers. */
  function DecodeJune2020(f: seq<int>): (r: Named)
    requires |f| == 8
    ensures r.Raises? <==>
      if f[0] == 0 then f[6] >= |Switches7June2020| else !Indexable(|Switches1June2020|, f[0])
  {
    if f[0] != 0 then Lookup(Switches1June2020, f[0])
    else if f[6] >= 0 then Lookup(Switches7June2020, f[6]) else Named("nix")
  }

  lemma GetSwitchJune2020OfEncoded(f: seq<int>)
    requires |f| == 8
    ensures GetSwitchJune2020(Switches.EncodeSwitch(f)) == DecodeJune2020(f)
  {
    Switches.EncodedFields(f);
  }

  /** With field 0 equal to 0 and fewer than seven fields, `split(',')[6]` raises. */
  lemma June2020FewFieldsRaise(s: string)
    requires var xx := Split(s, ',');
      |xx| < 7 && IsIntLiteral(xx[0]) && ParseInt(xx[0]) == 0
    ensures GetSwitchJune2020(s) == Raises
  {
  }

  /** A non-zero field 0 is all that is read: texts agreeing on field 0 decode alike. */
  lemma June2020ReadsFirstField(s: string, t: string)
    requires Split(s, ',')[0] == Split(t, ',')[0]
    requires IsIntLiteral(Split(s, ',')[0]) && ParseInt(Split(s, ',')[0]) != 0
    ensures GetSwitchJune2020(s) == GetSwitchJune2020(t)
  {
  }

  /** With field 0 equal to 0, June 2020 decodes the logical switches, the telemetry
      controls, the accelerometers (76-79 included), the sequencers and 116-129 as July 2020
      does, and a negative field 6 as "nix" where July 2020 shows "-". */
  lemma June2020AgreesJuly2020(f: seq<int>)
    requires |f| == 8 && f[0] == 0
    ensures f[6] < 0 ==> DecodeJune2020(f) == Named("nix") && DecodeJuly2020(f) == Named("-")
    ensures (0 <= f[6] < 24 || 48 <= f[6] < 90 || 116 <= f[6])
      ==> DecodeJune2020(f) == DecodeJuly2020(f)
  {
    var n7 := f[6];
    if 0 <= n7 < 130 {
      Switches7At(n7);
      SharedSegments();
      if n7 < 24 {
        assert LogNumbered[n7] == LogNumbered[..24][n7];
      } else if 116 <= n7 {
        assert OthersJune2020[n7 - 90] == OthersJune2020[26..][n7 - 116];
        assert OthersJuly2020[n7 - 90] == OthersJuly2020[26..][n7 - 116];
      }
    }
  }

  /** The first-position table gained P9 and P10 at 21 and 22 later, moving SM-SP up by two. */
  lemma FirstPositionMoved(n: int)
    requires 21 <= n < 25
    ensures Switches1June2020[n] == Switches.Switches1[n + 2]
    ensures n < 23 ==> Switches1June2020[n + 4] == "?" + Switches.Switches1[n]
  {
  }
}
