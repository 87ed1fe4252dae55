/** telemdetect, the table part: the transmitter lists the detected telemetry as one
    flat stream of records. A record with Param 0 is a sensor header and starts a new
    device; every other record is a measurement stored at slot Param of the current
    device. Each device is committed to the sensor dictionary under its header's ID.
    All revisions share this loop; they differ in the device size, in the guard on
    Param and in how the yes/no and priority columns of each record can fail. */
module Telemetry {
  import opened PyList
  import opened Values

  /** The dictionary key: a header's ID, or the empty key of records before any header. */
  datatype SensorKey = NoKey | Key(id: int)

  /** One record of the stream, with the columns the loop reads. */
  datatype Record = Record(id: int, param: int, name: string, rep: int, trig: int, prio: int)

  /** How a revision's loop differs: device size, the largest Param it accepts before
      stopping (None: no guard), and whether yes/no values other than 0/1 raise. */
  datatype Variant = Variant(slots: nat, guard: Option<int>, strictYesNo: bool)

  /** The current revision as written: the guard lets Param == 256 reach `device[256]`. */
  const AsWritten2023 := Variant(256, Some(256), false)
  /** The current revision with the guard it evidently intends: Param >= 256 stops. */
  const Current := Variant(256, Some(255), false)
  /** jemoview-2021-01-16.py and jemoview.py: 65 slots, no guard. */
  const Legacy65 := Variant(65, None, true)
  /** jemoview-2020-06-11.py: 33 slots, no guard. */
  const Legacy33 := Variant(33, None, true)

  /** Number of alarm priorities (low, medium, high). */
  const Priorities := 3

  function Fresh(slots: nat): (d: seq<string>)
    ensures |d| == slots && forall k :: 0 <= k < slots ==> d[k] == "nix"
  {
    seq(slots, _ => "nix")
  }

  datatype Status = Running | Stopped | Failed

  /** The loop's variables: current key and device, the dictionary, unknown-data count. */
  datatype Scan = Scan(key: SensorKey, device: seq<string>, sensors: map<SensorKey, seq<string>>,
                       unknowns: nat, status: Status)

  /** The dictionary with the current device committed, as at a header or at the end. */
  function Commit(st: Scan): map<SensorKey, seq<string>> {
    st.sensors[st.key := st.device]
  }

  /** One pass of the loop body. */
  function Step(st: Scan, r: Record, v: Variant): (next: Scan)
    requires |st.device| == v.slots
    ensures |next.device| == v.slots
  {
    if st.status != Running then st
    else
      var st1 :=
        if r.param == 0 then Scan(Key(r.id), Fresh(v.slots), if st.key.Key? then Commit(st) else st.sensors, st.unknowns, Running)
        else st;
      if v.guard.Some? && r.param > v.guard.value then st1.(unknowns := st1.unknowns + 1, status := Stopped)
      else if !Indexable(v.slots, r.param) then st1.(status := Failed)
      else
        var st2 := st1.(device := st1.device[Slot(v.slots, r.param) := r.name]);
        if v.strictYesNo then
          if !(r.rep in {0, 1} && r.trig in {0, 1} && Indexable(Priorities, r.prio)) then st2.(status := Failed)
          else st2
        else if r.param != 0 then
          var st3 := st2.(unknowns := st2.unknowns + (if r.rep in {0, 1} then 0 else 1) + (if r.trig in {0, 1} then 0 else 1));
          if !Indexable(Priorities, r.prio) then st3.(status := Failed) else st3
        else st2
  }

  function Start(init: map<SensorKey, seq<string>>, v: Variant): Scan {
    Scan(NoKey, Fresh(v.slots), init, 0, Running)
  }

  /** The loop variables after the records of `stream`, in order. */
  function Run(init: map<SensorKey, seq<string>>, stream: seq<Record>, v: Variant): (st: Scan)
    ensures |st.device| == v.slots
  {
    if stream == [] then Start(init, v)
    else Step(Run(init, stream[..|stream| - 1], v), stream[|stream| - 1], v)
  }

  datatype Outcome = Raised | Grouped(sensors: map<SensorKey, seq<string>>, unknowns: nat)

  /** The whole table part: an empty stream returns at once; a stop returns without the
      final commit; otherwise the last device is committed after the loop. */
  function Group(init: map<SensorKey, seq<string>>, stream: seq<Record>, v: Variant): (r: Outcome)
    ensures stream == [] ==> r == Grouped(init, 0)
    ensures r.Grouped? ==> init.Keys <= r.sensors.Keys && r.unknowns <= 2 * |stream|
  {
    if stream == [] then Grouped(init, 0)
    else
      RunBounds(init, stream, v);
      var st := Run(init, stream, v);
      match st.status
      case Failed => Raised
      case Stopped => Grouped(st.sensors, st.unknowns)
      case Running => Grouped(Commit(st), st.unknowns)
  }

  /** The loop never drops a key and counts at most two pieces of unknown data per record. */
  lemma {:induction false} RunBounds(init: map<SensorKey, seq<string>>, stream: seq<Record>, v: Variant)
    ensures init.Keys <= Run(init, stream, v).sensors.Keys && Run(init, stream, v).unknowns <= 2 * |stream|
  {
    if stream != [] {
      RunBounds(init, stream[..|stream| - 1], v);
    }
  }

  /** Once the loop has returned or raised, later records change nothing. */
  lemma {:induction false} RunHalts(init: map<SensorKey, seq<string>>, s: seq<Record>, rest: seq<Record>, v: Variant)
    requires Run(init, s, v).status != Running
    ensures Run(init, s + rest, v) == Run(init, s, v)
    decreases |rest|
  {
    if rest != [] {
      var front := rest[..|rest| - 1];
      assert (s + rest)[..|s + rest| - 1] == s + front;
      RunHalts(init, s, front, v);
      assert Run(init, s + rest, v) == Step(Run(init, s + front, v), rest[|rest| - 1], v);
    } else {
      assert s + rest == s;
    }
  }

  /** The loop of telemdetect over the records, proved against Group. */
  method GroupDevices(init: map<SensorKey, seq<string>>, stream: seq<Record>, v: Variant)
    returns (sensors: map<SensorKey, seq<string>>, unknowns: nat, raised: bool)
    ensures raised <==> Group(init, stream, v).Raised?
    ensures !raised ==> sensors == Group(init, stream, v).sensors && unknowns == Group(init, stream, v).unknowns
    ensures stream == [] ==> !raised && sensors == init && unknowns == 0
    ensures raised ==> sensors == Run(init, stream, v).sensors && unknowns == Run(init, stream, v).unknowns
  {
    if |stream| == 0 {
      return init, 0, false;
    }
    var key: SensorKey := NoKey;
    var device := Fresh(v.slots);
    sensors, unknowns := init, 0;
    var i := 0;
    while i < |stream|
      invariant 0 <= i <= |stream|
      invariant Run(init, stream[..i], v) == Scan(key, device, sensors, unknowns, Running)
    {
      var r := stream[i];
      RunNext(init, stream, i, v);
      if r.param == 0 {
        if key.Key? {
          sensors := sensors[key := device];
        }
        key := Key(r.id);
        device := Fresh(v.slots);
      }
      if v.guard.Some? && r.param > v.guard.value {
        unknowns := unknowns + 1;
        RunStopsAt(init, stream, i, v);
        return sensors, unknowns, false;
      }
      if !Indexable(v.slots, r.param) {
        RunStopsAt(init, stream, i, v);
        return sensors, unknowns, true;
      }
      device := device[Slot(v.slots, r.param) := r.name];
      if v.strictYesNo || r.param != 0 {
        if !v.strictYesNo {
          unknowns := unknowns + (if r.rep in {0, 1} then 0 else 1) + (if r.trig in {0, 1} then 0 else 1);
        }
        if !Indexable(Priorities, r.prio) || (v.strictYesNo && !(r.rep in {0, 1} && r.trig in {0, 1})) {
          RunStopsAt(init, stream, i, v);
          return sensors, unknowns, true;
        }
      }
      i := i + 1;
    }
    assert stream[..i] == stream;
    sensors, raised := sensors[key := device], false;
  }

  /** The loop variables after record i follow from those before it. */
  lemma RunNext(init: map<SensorKey, seq<string>>, stream: seq<Record>, i: nat, v: Variant)
    requires i < |stream|
    ensures Run(init, stream[..i + 1], v) == Step(Run(init, stream[..i], v), stream[i], v)
  {
    assert stream[..i + 1][..i] == stream[..i];
  }

  /** A loop that stops at record i ends with the variables it had there. */
  lemma RunStopsAt(init: map<SensorKey, seq<string>>, stream: seq<Record>, i: nat, v: Variant)
    requires i < |stream| && Run(init, stream[..i + 1], v).status != Running
    ensures Run(init, stream, v) == Run(init, stream[..i + 1], v)
  {
    RunHalts(init, stream[..i + 1], stream[i + 1..], v);
    assert stream[..i + 1] + stream[i + 1..] == stream;
  }

  // ---------------------------------------------------------------- reference grouping

  /** The stream cut before every header: each block is a header and its measurements;
      the first block has no header when the stream does not start with one. */
  function Blocks(stream: seq<Record>): (b: seq<seq<Record>>)
    ensures stream == [] <==> b == []
    ensures forall k :: 0 <= k < |b| ==> b[k] != []
  {
    if stream == [] then []
    else
      var prev := Blocks(stream[..|stream| - 1]);
      var r := stream[|stream| - 1];
      if r.param == 0 || prev == [] then prev + [[r]]
      else prev[..|prev| - 1] + [prev[|prev| - 1] + [r]]
  }

  /** Blocks grows by one record at a time: a header or the first record opens a new
      block, any other record joins the last one. */
  lemma BlocksSnoc(front: seq<Record>, r: Record)
    ensures var pb := Blocks(front); var b := Blocks(front + [r]);
      if r.param == 0 || pb == [] then b == pb + [[r]]
      else b == pb[..|pb| - 1] + [pb[|pb| - 1] + [r]]
  {
    assert (front + [r])[..|front|] == front;
  }

  /** The slot updates of a block, in order. */
  function Updates(block: seq<Record>): (u: seq<(int, string)>)
    ensures |u| == |block| && forall k :: 0 <= k < |block| ==> u[k] == (block[k].param, block[k].name)
  {
    if block == [] then [] else Updates(block[..|block| - 1]) + [(block[|block| - 1].param, block[|block| - 1].name)]
  }

  predicate InRange(block: seq<Record>, slots: nat) {
    forall k :: 0 <= k < |block| ==> 0 <= block[k].param < slots
  }

  /** The device a block describes: its labels at their Param slots. */
  function DeviceOf(block: seq<Record>, slots: nat): (d: seq<string>)
    requires InRange(block, slots)
  {
    Assign(Fresh(slots), Updates(block))
  }

  /** A record joining a block writes its label into its slot. */
  lemma DeviceOfSnoc(block: seq<Record>, r: Record, slots: nat)
    requires InRange(block, slots) && 0 <= r.param < slots
    ensures InRange(block + [r], slots)
    ensures DeviceOf(block + [r], slots) == DeviceOf(block, slots)[r.param := r.name]
  {
    var b := block + [r];
    assert b[..|block|] == block;
    assert InRange(b, slots) by {
      forall k | 0 <= k < |b| ensures 0 <= b[k].param < slots {
        if k < |block| { assert b[k] == block[k]; }
      }
    }
    var u := Updates(b);
    assert u[..|u| - 1] == Updates(block);
  }

  function KeyOf(block: seq<Record>): SensorKey
    requires block != []
  {
    if block[0].param == 0 then Key(block[0].id) else NoKey
  }

  predicate AllInRange(blocks: seq<seq<Record>>, slots: nat) {
    forall k :: 0 <= k < |blocks| ==> blocks[k] != [] && InRange(blocks[k], slots)
  }

  /** The dictionary after committing every block but the last: each block with a header
      under its ID, later blocks overwriting earlier ones with the same ID. */
  function CommitAllButLast(init: map<SensorKey, seq<string>>, blocks: seq<seq<Record>>, slots: nat): map<SensorKey, seq<string>>
    requires AllInRange(blocks, slots)
  {
    if |blocks| <= 1 then init
    else
      var before := CommitAllButLast(init, blocks[..|blocks| - 1], slots);
      var b := blocks[|blocks| - 2];
      if b[0].param == 0 then before[Key(b[0].id) := DeviceOf(b, slots)] else before
  }

  /** Every block is made of records of the stream. */
  lemma {:induction false} BlocksInRange(stream: seq<Record>, slots: nat)
    requires InRange(stream, slots)
    ensures AllInRange(Blocks(stream), slots)
  {
    if stream != [] {
      var front := stream[..|stream| - 1];
      var r := stream[|stream| - 1];
      assert InRange(front, slots);
      BlocksInRange(front, slots);
      assert front + [r] == stream;
      BlocksSnoc(front, r);
      var pb := Blocks(front);
      if r.param == 0 || pb == [] {
        AllInRangeSnoc(pb, [r], slots);
      } else {
        var init := pb[..|pb| - 1];
        assert AllInRange(init, slots) by {
          forall k | 0 <= k < |init| ensures init[k] != [] && InRange(init[k], slots) {
            assert init[k] == pb[k];
          }
        }
        DeviceOfSnoc(pb[|pb| - 1], r, slots);
        AllInRangeSnoc(init, pb[|pb| - 1] + [r], slots);
      }
    }
  }

  /** The dictionary the loop builds, stated through the blocks of the stream: every block
      but the last is committed under its header's ID (a headerless first block is
      dropped when a header follows), and the last block is committed under its key. A
      measurement whose ID differs from its header's still belongs to that header's block. */
  function Reference(init: map<SensorKey, seq<string>>, stream: seq<Record>, slots: nat): map<SensorKey, seq<string>>
    requires stream != [] && InRange(stream, slots)
  {
    var b := Blocks(stream);
    BlocksInRange(stream, slots);
    CommitAllButLast(init, b, slots)[KeyOf(b[|b| - 1]) := DeviceOf(b[|b| - 1], slots)]
  }

  /** A record that passes the guard and every column check. */
  predicate CleanRecord(r: Record, v: Variant) {
    0 <= r.param < v.slots
    && (v.guard.Some? ==> r.param <= v.guard.value)
    && (v.strictYesNo || r.param != 0 ==> Indexable(Priorities, r.prio))
    && (v.strictYesNo ==> r.rep in {0, 1} && r.trig in {0, 1})
  }

  predicate Clean(stream: seq<Record>, v: Variant) {
    forall k :: 0 <= k < |stream| ==> CleanRecord(stream[k], v)
  }

  /** A clean record keeps the loop running: a header commits the current device (when
      there is a key) and opens a fresh one; every record writes its label to its slot. */
  lemma StepClean(st: Scan, r: Record, v: Variant)
    requires st.status == Running && |st.device| == v.slots && CleanRecord(r, v)
    ensures var next := Step(st, r, v);
      next.status == Running
      && next.key == (if r.param == 0 then Key(r.id) else st.key)
      && next.device == (if r.param == 0 then Fresh(v.slots) else st.device)[r.param := r.name]
      && next.sensors == (if r.param == 0 && st.key.Key? then Commit(st) else st.sensors)
  {
  }

  /** A new block commits the block before it, when that one has a header. */
  lemma CommitNewBlock(init: map<SensorKey, seq<string>>, pb: seq<seq<Record>>, blk: seq<Record>, slots: nat)
    requires pb != [] && AllInRange(pb + [blk], slots)
    ensures AllInRange(pb, slots)
    ensures var last := pb[|pb| - 1];
      CommitAllButLast(init, pb + [blk], slots)
      == if last[0].param == 0 then CommitAllButLast(init, pb, slots)[Key(last[0].id) := DeviceOf(last, slots)]
         else CommitAllButLast(init, pb, slots)
  {
    var b := pb + [blk];
    assert b[..|b| - 1] == pb;
    assert AllInRange(pb, slots) by {
      forall k | 0 <= k < |pb| ensures pb[k] != [] && InRange(pb[k], slots) {
        assert pb[k] == b[k];
      }
    }
  }

  /** Growing the last block leaves the earlier commits alone. */
  lemma CommitGrowLast(init: map<SensorKey, seq<string>>, pb: seq<seq<Record>>, blk: seq<Record>, slots: nat)
    requires pb != [] && AllInRange(pb, slots) && AllInRange(pb[..|pb| - 1] + [blk], slots)
    ensures CommitAllButLast(init, pb[..|pb| - 1] + [blk], slots) == CommitAllButLast(init, pb, slots)
  {
    var b := pb[..|pb| - 1] + [blk];
    if |pb| >= 2 {
      assert b[..|b| - 1] == pb[..|pb| - 1];
      assert b[|b| - 2] == pb[|pb| - 2];
    }
  }

  /** The loop variables agree with the block view of the records read so far: the
      current key and device are the last block's, the dictionary holds the earlier ones. */
  predicate Matches(init: map<SensorKey, seq<string>>, st: Scan, b: seq<seq<Record>>, slots: nat)
    requires b != [] && AllInRange(b, slots)
  {
    st.status == Running && st.key == KeyOf(b[|b| - 1]) && st.device == DeviceOf(b[|b| - 1], slots)
    && st.sensors == CommitAllButLast(init, b, slots)
  }

  lemma MatchesAfterHeader(init: map<SensorKey, seq<string>>, st: Scan, pb: seq<seq<Record>>, r: Record, v: Variant)
    requires pb != [] && AllInRange(pb, v.slots) && Matches(init, st, pb, v.slots)
    requires |st.device| == v.slots && CleanRecord(r, v) && r.param == 0
    ensures AllInRange(pb + [[r]], v.slots) && Matches(init, Step(st, r, v), pb + [[r]], v.slots)
  {
    StepClean(st, r, v);
    DeviceOfSnoc([], r, v.slots);
    assert [] + [r] == [r];
    AllInRangeSnoc(pb, [r], v.slots);
    CommitNewBlock(init, pb, [r], v.slots);
    var last := pb[|pb| - 1];
    var next := Step(st, r, v);
    assert next.key == KeyOf([r]);
    assert next.device == DeviceOf([r], v.slots);
    assert next.sensors == CommitAllButLast(init, pb + [[r]], v.slots) by {
      if last[0].param == 0 {
        assert st.key == Key(last[0].id);
      } else {
        assert st.key == NoKey;
      }
    }
  }

  /** Appending a block of records in range keeps every block in range. */
  lemma AllInRangeSnoc(pb: seq<seq<Record>>, blk: seq<Record>, slots: nat)
    requires AllInRange(pb, slots) && blk != [] && InRange(blk, slots)
    ensures AllInRange(pb + [blk], slots)
  {
    var b := pb + [blk];
    forall k | 0 <= k < |b| ensures b[k] != [] && InRange(b[k], slots) {
      if k < |pb| { assert b[k] == pb[k]; }
    }
  }

  lemma MatchesAfterMeasurement(init: map<SensorKey, seq<string>>, st: Scan, pb: seq<seq<Record>>, r: Record, v: Variant)
    requires pb != [] && AllInRange(pb, v.slots) && Matches(init, st, pb, v.slots)
    requires |st.device| == v.slots && CleanRecord(r, v) && r.param != 0
    ensures var b := pb[..|pb| - 1] + [pb[|pb| - 1] + [r]];
      AllInRange(b, v.slots) && Matches(init, Step(st, r, v), b, v.slots)
  {
    StepClean(st, r, v);
    var last := pb[|pb| - 1];
    DeviceOfSnoc(last, r, v.slots);
    assert (last + [r])[0] == last[0];
    AllInRangeSnoc(pb[..|pb| - 1], last + [r], v.slots);
    CommitGrowLast(init, pb, last + [r], v.slots);
  }

  /** While the loop runs cleanly, its variables are those of the block view. */
  lemma {:induction false} RunMatchesBlocks(init: map<SensorKey, seq<string>>, stream: seq<Record>, v: Variant)
    requires stream != [] && Clean(stream, v)
    ensures InRange(stream, v.slots) && AllInRange(Blocks(stream), v.slots)
    ensures Matches(init, Run(init, stream, v), Blocks(stream), v.slots)
  {
    var front := stream[..|stream| - 1];
    var r := stream[|stream| - 1];
    assert front + [r] == stream;
    assert InRange(stream, v.slots);
    BlocksInRange(stream, v.slots);
    BlocksSnoc(front, r);
    assert CleanRecord(r, v);
    if front == [] {
      assert Blocks(stream) == [[r]];
      assert Run(init, stream, v) == Step(Start(init, v), r, v);
      StepClean(Start(init, v), r, v);
      DeviceOfSnoc([], r, v.slots);
      assert [] + [r] == [r];
    } else {
      assert Clean(front, v);
      RunMatchesBlocks(init, front, v);
      if r.param == 0 {
        MatchesAfterHeader(init, Run(init, front, v), Blocks(front), r, v);
      } else {
        MatchesAfterMeasurement(init, Run(init, front, v), Blocks(front), r, v);
      }
    }
  }

  /** A clean stream is grouped exactly as the block view says. */
  lemma GroupMatchesReference(init: map<SensorKey, seq<string>>, stream: seq<Record>, v: Variant)
    requires stream != [] && Clean(stream, v)
    ensures InRange(stream, v.slots)
    ensures Group(init, stream, v) == Grouped(Reference(init, stream, v.slots), Run(init, stream, v).unknowns)
  {
    RunMatchesBlocks(init, stream, v);
  }

  /** In the current revision a Param above 255 counts as unknown data and ends the scan:
      the device it would have gone into is never committed, nor is anything after it. */
  lemma GuardStopsScan(init: map<SensorKey, seq<string>>, s: seq<Record>, r: Record, rest: seq<Record>)
    requires Run(init, s, Current).status == Running && r.param > 255
    ensures Group(init, s + [r] + rest, Current)
         == Grouped(Run(init, s, Current).sensors, Run(init, s, Current).unknowns + 1)
  {
    var s1 := s + [r];
    assert s1[..|s1| - 1] == s;
    RunHalts(init, s1, rest, Current);
  }

  /** As written, a record at Param 256 that the scan reaches raises, whatever follows. */
  lemma AsWrittenRaisesAt256(init: map<SensorKey, seq<string>>, s: seq<Record>, r: Record, rest: seq<Record>)
    requires Run(init, s, AsWritten2023).status == Running && r.param == 256
    ensures Group(init, s + [r] + rest, AsWritten2023).Raised?
  {
    var s1 := s + [r];
    assert s1[..|s1| - 1] == s;
    RunHalts(init, s1, rest, AsWritten2023);
  }

  /** The guard as written lets a measurement at Param 256 through to `device[256]`,
      which raises IndexError, so the whole document is skipped. */
  lemma AsWrittenGuardRaises()
    ensures Group(map[], [Record(7, 0, "A", 0, 0, 0), Record(7, 256, "B", 0, 0, 0)], AsWritten2023).Raised?
    ensures Group(map[], [Record(7, 0, "A", 0, 0, 0), Record(7, 256, "B", 0, 0, 0)], Current) == Grouped(map[], 1)
  {
    var s := [Record(7, 0, "A", 0, 0, 0), Record(7, 256, "B", 0, 0, 0)];
    assert s[..1] == [s[0]];
    assert [s[0]][..0] == [];
    forall v | v == AsWritten2023 || v == Current
      ensures Run(map[], s, v) == Step(Scan(Key(7), Fresh(256)[0 := "A"], map[], 0, Running), s[1], v)
    {
      assert Run(map[], [s[0]], v) == Step(Start(map[], v), s[0], v);
    }
  }

  /** With the intended guard no large Param can raise: only a Param below -256 or a
      priority outside the table makes the current revision raise. */
  lemma CurrentNeverRaisesOnLargeParam(init: map<SensorKey, seq<string>>, stream: seq<Record>)
    requires forall k :: 0 <= k < |stream| ==>
      (stream[k].param >= -256 && (stream[k].param != 0 ==> Indexable(Priorities, stream[k].prio)))
    ensures Run(init, stream, Current).status != Failed
  {
    if stream != [] {
      CurrentNeverRaisesOnLargeParam(init, stream[..|stream| - 1]);
    }
  }
}
