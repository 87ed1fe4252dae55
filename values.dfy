/** The value helpers of the viewer: time and device-id formatting, decimal scaling,
    yes/no labels, the curve-type table, the "global or per-mode" emit rule and the
    percentage shown for proportional controls. The ones that call `zefix(1)` in the
    source report it through an `unknown` flag; the extraction context counts it. */
module Values {
  import opened PyList
  import opened Text

  /** The report language; every German/English pair in the source is chosen by it. */
  datatype Lang = De | En

  /** A label together with whether producing it called `zefix(1)`. */
  datatype Labelled = Labelled(text: string, unknown: bool)

  const Zefix := "?zefix?"

  // ---------------------------------------------------------------- getTime

  /** `±H:MM:SS` from a sign and its three fields, hours unpadded. */
  function TimeText(neg: bool, h: nat, m: nat, sec: nat): string
    requires m < 60 && sec < 60
  {
    [if neg then '-' else '+'] + (NatToString(h) + [':'] + (Pad2(m) + [':'] + Pad2(sec)))
  }

  /** getTime: a signed number of seconds as `±H:MM:SS`, hours unpadded. */
  function GetTime(t: int): (r: string)
    ensures |r| > 0 && r[0] == (if t >= 0 then '+' else '-')
  {
    if t == 0 then "+0:00:00"
    else
      var a := if t < 0 then -t else t;
      TimeText(t < 0, a / 3600, a % 3600 / 60, a % 3600 % 60)
  }

  /** Reads a `±H:MM:SS` text back: two-digit minutes and seconds below 60. */
  function ParseTime(r: string): (t: Option<int>)
    ensures t.Some? ==> |r| > 0 && r[0] in {'+', '-'}
  {
    if |r| == 0 || (r[0] != '+' && r[0] != '-') then None
    else TimeOfFields(r[0] == '-', Split(r[1..], ':'))
  }

  /** The signed total of hours, minutes and seconds fields, if they are well formed. */
  function TimeOfFields(neg: bool, parts: seq<string>): Option<int> {
    if |parts| != 3 || !IsDigits(parts[0]) || |parts[1]| != 2 || |parts[2]| != 2
       || !AllDigits(parts[1]) || !AllDigits(parts[2]) then None
    else
      var h, m, s := DigitsValue(parts[0]), DigitsValue(parts[1]), DigitsValue(parts[2]);
      if m >= 60 || s >= 60 then None
      else
        var magnitude := h * 3600 + m * 60 + s;
        Some(if neg then -magnitude else magnitude)
  }

  /** The three colon-separated fields of a time text split apart again. */
  lemma SplitTimeFields(hs: string, ms: string, ss: string)
    requires AllDigits(hs) && AllDigits(ms) && AllDigits(ss)
    ensures Split(hs + [':'] + (ms + [':'] + ss), ':') == [hs, ms, ss]
  {
    assert ':' !in hs && ':' !in ms && ':' !in ss by {
      assert !IsDigit(':');
    }
    SplitAfterFirst(hs, ms + [':'] + ss, ':');
    SplitAfterFirst(ms, ss, ':');
    SplitWithoutSep(ss, ':');
  }

  /** A sign, unpadded hours and two-digit minutes and seconds read back as their total. */
  lemma ParseTimeText(neg: bool, h: nat, m: nat, sec: nat)
    requires m < 60 && sec < 60
    ensures ParseTime(TimeText(neg, h, m, sec))
         == Some(if neg then -(h * 3600 + m * 60 + sec) else h * 3600 + m * 60 + sec)
  {
    var hs, ms, ss := NatToString(h), Pad2(m), Pad2(sec);
    var r := TimeText(neg, h, m, sec);
    assert r[1..] == hs + [':'] + (ms + [':'] + ss);
    SplitTimeFields(hs, ms, ss);
    assert TimeOfFields(neg, [hs, ms, ss]) == Some(if neg then -(h * 3600 + m * 60 + sec) else h * 3600 + m * 60 + sec);
  }

  /** Every duration formats to a text that reads back as the same duration:
      hours, minutes and seconds recombine to |t| and the sign is kept. */
  lemma GetTimeRoundTrip(t: int)
    ensures ParseTime(GetTime(t)) == Some(t)
  {
    if t == 0 {
      ZeroTimeText();
      ParseTimeText(false, 0, 0, 0);
    } else {
      var a := if t < 0 then -t else t;
      SecondsSplit(a);
      ReadsBack(t, a / 3600, a % 3600 / 60, a % 3600 % 60);
    }
  }

  /** A duration whose magnitude splits into h, m and sec reads back as itself. */
  lemma ReadsBack(t: int, h: nat, m: nat, sec: nat)
    requires m < 60 && sec < 60
    requires (if t < 0 then -t else t) == h * 3600 + m * 60 + sec
    ensures ParseTime(TimeText(t < 0, h, m, sec)) == Some(t)
  {
    ParseTimeText(t < 0, h, m, sec);
  }

  /** Zero seconds is spelled like the general case would spell it. */
  lemma ZeroTimeText()
    ensures GetTime(0) == TimeText(false, 0, 0, 0)
  {
    assert Pad2(0) == "00";
  }

  /** Hours, minutes and seconds recombine to the total. */
  lemma SecondsSplit(a: nat)
    ensures a % 3600 / 60 < 60 && a % 3600 % 60 < 60
    ensures a == a / 3600 * 3600 + a % 3600 / 60 * 60 + a % 3600 % 60
  {
  }

  // ---------------------------------------------------------------- getDeviceID

  const TwoTo31 := 0x8000_0000

  /** Python's `int(a / b)` for b > 0: the quotient truncated toward zero. */
  function TruncDiv(a: int, b: nat): int
    requires b > 0
  {
    if a >= 0 then a / b else -((-a) / b)
  }

  /** getDeviceID: a device id packed as `high * 65536 + low` into a signed 32-bit
      integer, shown as `"low:high"`; 0 means no device, and a negative value is a
      wrapped id whose high half is at least 32768. */
  function GetDeviceID(raw: int): (r: string)
    ensures r == "-" <==> raw == 0
  {
    if raw == 0 then "-"
    else if raw > 0 then Halves(raw, 0)
    else Halves(TwoTo31 + raw, 32768)
  }

  /** `"low:high"` for `z = high * 65536 + low`, the high half raised by `offset`. */
  function Halves(z: int, offset: nat): string {
    var z1 := TruncDiv(z, 65536);
    IntToString(z - z1 * 65536) + ":" + IntToString(z1 + offset)
  }

  /** How the transmitter stores the pair (high, low): two's complement 32-bit. */
  function EncodeDeviceID(high: nat, low: nat): (raw: int)
    requires high < 65536 && low < 65536
    ensures -TwoTo31 <= raw < TwoTo31
  {
    var u := high * 65536 + low;
    if u >= TwoTo31 then u - 2 * TwoTo31 else u
  }

  /** Splitting a non-negative `h * 65536 + l` back into its halves. */
  lemma HalvesOf(z: int, h: nat, l: nat, offset: nat)
    requires l < 65536 && z == h * 65536 + l
    ensures Halves(z, offset) == NatToString(l) + ":" + NatToString(h + offset)
  {
    assert TruncDiv(z, 65536) == h;
  }

  /** Every pair other than (0, 0), wrapped or not, decodes back to `"low:high"`. */
  lemma DeviceIDRoundTrip(high: nat, low: nat)
    requires high < 65536 && low < 65536 && (high, low) != (0, 0)
    ensures GetDeviceID(EncodeDeviceID(high, low)) == NatToString(low) + ":" + NatToString(high)
  {
    var raw := EncodeDeviceID(high, low);
    var u := high * 65536 + low;
    if high < 32768 {
      assert 0 < u < TwoTo31 && raw == u;
      HalvesOf(raw, high, low, 0);
    } else {
      var z := (high - 32768) * 65536 + low;
      assert u == z + TwoTo31 && z < TwoTo31;
      assert raw == z - TwoTo31 < 0;
      HalvesOf(z, high - 32768, low, 32768);
    }
  }

  // ---------------------------------------------------------------- setDecPoint

  function Pow10(n: nat): (p: nat)
    ensures p > 0
  {
    if n == 0 then 1 else 10 * Pow10(n - 1)
  }

  /** setDecPoint / setDecimal: divides the stored integer by ten `n` times; `n <= 0`
      leaves the value as it is. Division is exact here (the source uses floats). */
  method SetDecPoint(n: int, v: real) returns (r: real)
    ensures n <= 0 ==> r == v
    ensures n > 0 ==> r == v / (Pow10(n) as real)
  {
    r := v;
    var k := n;
    while k > 0
      invariant k <= 0 ==> (n <= 0 && k == n && r == v) || (n > 0 && k == 0)
      invariant n <= 0 ==> r == v
      invariant n > 0 ==> 0 <= k <= n && r * (Pow10(n - k) as real) == v
    {
      assert Pow10(n - (k - 1)) == 10 * Pow10(n - k);
      r := r / 10.0;
      k := k - 1;
    }
  }

  // ---------------------------------------------------------------- writeEssence

  predicate AllSame(values: seq<string>) {
    forall i :: 0 <= i < |values| ==> values[i] == values[0]
  }

  /** Each label followed by its value, in order. */
  function Interleave(labels: seq<string>, values: seq<string>): (w: seq<string>)
    requires |labels| >= |values|
    ensures |w| == 2 * |values|
    ensures forall i :: 0 <= i < |values| ==> w[2 * i] == labels[i] && w[2 * i + 1] == values[i]
  {
    if values == [] then []
    else
      var w := Interleave(labels, values[..|values| - 1]) + [labels[|values| - 1], values[|values| - 1]];
      assert forall i :: 0 <= i < |values| - 1 ==> values[..|values| - 1][i] == values[i];
      w
  }

  /** writeEssence / checkGlobal: when every value equals the first, one `Global` line
      with that value; otherwise every label with its value. None where the source
      raises IndexError: no values at all, or fewer labels than values. */
  method WriteEssence(labels: seq<string>, values: seq<string>) returns (written: Option<seq<string>>)
    ensures written.None? <==> |values| == 0 || (!AllSame(values) && |labels| < |values|)
    ensures written.Some? && AllSame(values) ==> written.value == ["\nGlobal", values[0]]
    ensures written.Some? && !AllSame(values) ==> written.value == Interleave(labels, values)
  {
    var glob := true;
    for i := 0 to |values|
      invariant glob <==> forall j :: 0 <= j < i ==> values[j] == values[0]
    {
      if values[0] != values[i] {
        glob := false;
      }
    }
    if glob {
      if |values| == 0 {
        return None;
      }
      return Some(["\nGlobal", values[0]]);
    }
    var w := [];
    for i := 0 to |values|
      invariant i <= |labels|
      invariant w == Interleave(labels[..i], values[..i])
    {
      if i >= |labels| {
        return None;
      }
      assert values[..i + 1][..i] == values[..i];
      assert labels[..i + 1][..i] == labels[..i];
      InterleaveLabelsPrefix(labels[..i], labels[..i + 1], values[..i]);
      w := w + [labels[i], values[i]];
    }
    assert values[..|values|] == values;
    InterleaveLabelsPrefix(labels[..|values|], labels, values);
    return Some(w);
  }

  /** Only the first |values| labels matter to Interleave. */
  lemma {:induction false} InterleaveLabelsPrefix(l1: seq<string>, l2: seq<string>, values: seq<string>)
    requires |values| <= |l1| <= |l2| && l1 == l2[..|l1|]
    ensures Interleave(l1, values) == Interleave(l2, values)
  {
    if values != [] {
      InterleaveLabelsPrefix(l1, l2, values[..|values| - 1]);
    }
  }

  // ---------------------------------------------------------------- getYesNo, checkBala

  /** getYesNo: 0 and 1 give the language's no/yes; any other value is unknown data. */
  function YesNo(v: int, lang: Lang): (r: Labelled)
    ensures r.unknown <==> v != 0 && v != 1
    ensures r.unknown ==> r.text == Zefix
  {
    if v == 0 then Labelled(if lang == De then "nein" else "no", false)
    else if v == 1 then Labelled(if lang == De then "ja" else "yes", false)
    else Labelled(Zefix, true)
  }

  /** checkBala: "yes" exactly when some servo-balancer point is non-zero; never unknown. */
  method CheckBala(points: seq<int>, lang: Lang) returns (r: Labelled)
    ensures !r.unknown
    ensures r == YesNo(if exists i :: 0 <= i < |points| && points[i] != 0 then 1 else 0, lang)
  {
    var status := 0;
    for i := 0 to |points|
      invariant status == 1 <==> exists j :: 0 <= j < i && points[j] != 0
      invariant status == 0 || status == 1
    {
      if points[i] != 0 {
        status := 1;
      }
    }
    r := YesNo(status, lang);
  }

  // ---------------------------------------------------------------- getCurve

  function CurveTypes(lang: Lang): (t: seq<string>)
    ensures |t| == 13
  {
    if lang == De then
      ["Standard", "konstant", "x>0", "x<0", "|x|", "+positiv", "-negativ",
       "symmetrisch", "3-Punkt", "5-Punkt", "7-Punkt", "9-Punkt", "Gyro"]
    else
      ["Standard", "Constant", "x>0", "x<0", "|x|", "+positive", "-negative",
       "±symmetric", "3-point", "5-point", "7-point", "9-point", "Gyro"]
  }

  datatype CurveDescriptor = CurveRaised | Curve(name: string, hasPoints: bool, unknown: bool)

  /** getCurve: the curve-type label and whether point data follows. Codes past the
      table are unknown data; a negative code indexes from the end of the table. */
  function GetCurve(code: int, lang: Lang): (r: CurveDescriptor)
    ensures r.CurveRaised? <==> code < -13
    ensures r.Curve? ==> (r.hasPoints <==> 8 <= code <= 11)
    ensures r.Curve? ==> (r.unknown <==> code >= 13)
    ensures r.Curve? && r.unknown ==> r.name == Zefix
    ensures 0 <= code < 13 ==> r == Curve(CurveTypes(lang)[code], 8 <= code <= 11, false)
  {
    var types := CurveTypes(lang);
    if code < |types| then
      match At(types, code)
      case None => CurveRaised
      case Some(name) => Curve(name, code in [8, 9, 10, 11], false)
    else Curve(Zefix, false, true)
  }

  // ---------------------------------------------------------------- percentage

  /** `round(100 * val / 4000)` with Python's round-half-to-even, computed exactly. */
  function Percent(v: int): (p: int)
    ensures -20 <= v - 40 * p <= 20
  {
    var q, r := v / 40, v % 40;
    if 2 * r < 40 then q
    else if 2 * r > 40 then q + 1
    else if q % 2 == 0 then q else q + 1
  }

  /** The percentage is odd in the value, is 0 at 0, ±100 at ±4000 and stays within ±100. */
  lemma PercentProperties(v: int)
    ensures Percent(-v) == -Percent(v)
    ensures Percent(0) == 0 && Percent(4000) == 100 && Percent(-4000) == -100
    ensures -4000 <= v <= 4000 ==> -100 <= Percent(v) <= 100
  {
    PercentOdd(v);
    if -4000 <= v <= 4000 {
      assert -100 <= v / 40 <= 100;
    }
  }

  /** Rounding half to even is symmetric about zero. */
  lemma PercentOdd(v: int)
    ensures Percent(-v) == -Percent(v)
  {
    var q, r := v / 40, v % 40;
    assert v == 40 * q + r;
    if r == 0 {
      assert -v == 40 * (-q) + 0;
      assert (-v) / 40 == -q && (-v) % 40 == 0;
    } else {
      assert -v == 40 * (-q - 1) + (40 - r);
      assert (-v) / 40 == -q - 1 && (-v) % 40 == 40 - r;
    }
  }
}
