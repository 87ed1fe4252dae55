/** Value helpers of the earlier revisions that differ from the current ones: getJaNein
    (and getYesNo of January 2021), which return nothing for a value other than 0 or 1,
    and the receiver-id split of globalstr in January 2021, which has no case for a
    wrapped id. */
module LegacyValues {
  import opened PyList
  import opened Text
  import opened Values

  /** getJaNein / getYesNo: "nein"/"ja" (or "no"/"yes") for 0 and 1, None otherwise; the
      callers concatenate the result, so None makes them raise. */
  function JaNein(v: int, lang: Lang): (r: Option<string>)
    ensures r.Some? <==> v == 0 || v == 1
    ensures r.Some? ==> r.value == YesNo(v, lang).text && !YesNo(v, lang).unknown
    ensures r.None? ==> YesNo(v, lang).unknown
  {
    if v == 0 then Some(if lang == De then "nein" else "no")
    else if v == 1 then Some(if lang == De then "ja" else "yes")
    else None
  }

  /** Receiver-ID1/2 and Rx-ID900 in January 2021: a positive value is split into
      `value - 65536 * int(value / 65536)` and `int(value / 65536)`; anything else is "-". */
  function ReceiverId2021(value: int): (r: string)
    ensures r == "-" <==> value <= 0
  {
    if value > 0 then
      var z2 := TruncDiv(value, 65536);
      var z1 := value - z2 * 65536;
      IntToString(z1) + ":" + IntToString(z2)
    else "-"
  }

  /** A positive value is shown as getDeviceID shows it now. */
  lemma ReceiverIdAgreesOnPositive(value: int)
    requires value > 0
    ensures ReceiverId2021(value) == GetDeviceID(value)
  {
  }

  /** Every pair whose packed form is positive reads back as `"low:high"`; a pair with a
      high half of 32768 or more wraps to a negative value and is shown as "-", where
      getDeviceID recovers it. */
  lemma ReceiverIdPairs(high: nat, low: nat)
    requires high < 65536 && low < 65536 && (high, low) != (0, 0)
    ensures high < 32768 ==> ReceiverId2021(EncodeDeviceID(high, low)) == NatToString(low) + ":" + NatToString(high)
    ensures high >= 32768 ==> (ReceiverId2021(EncodeDeviceID(high, low)) == "-"
      && GetDeviceID(EncodeDeviceID(high, low)) == NatToString(low) + ":" + NatToString(high))
  {
    var raw := EncodeDeviceID(high, low);
    if high < 32768 {
      assert raw == high * 65536 + low;
      HalvesOf(raw, high, low, 0);
    } else {
      DeviceIDRoundTrip(high, low);
    }
  }
}
