/** Flight modes and the mix rows of July 2020 (jemoview.py) and June 2020. flightmodes
    writes the label of the i-th flight mode into `flugphasen[i]` and a number into its
    eleventh slot: the last index in July 2020, the count in June 2020. mixesmain then walks
    the free mixes and, for each, the flight modes, reading `Mixes-Values[jj * anz_mix + ii]`
    for mix ii in flight mode jj. In July 2020 a global mix stops after its first row. */
module LegacyModes {
  import LegacySwitches

  datatype Revision = July2020 | June2020

  /** Label slots of `flugphasen`; the eleventh slot holds the stored number instead. */
  const LabelSlots := 10

  /** What flightmodes leaves in the eleventh slot for n flight modes. */
  function Stored(n: nat, rev: Revision): int {
    if rev == July2020 then n - 1 else n
  }

  /** How many flight modes mixesmain walks for a stored number: `range(stored + 1)` in
      July 2020, `range(stored)` in June 2020. */
  function ModeCount(stored: int, rev: Revision): nat {
    var n := if rev == July2020 then stored + 1 else stored;
    if n < 0 then 0 else n
  }

  /** The label slots after flightmodes: the first labels, the rest unchanged. */
  function WithLabels(old_labels: seq<string>, labels: seq<string>): (r: seq<string>)
    requires |old_labels| == LabelSlots
    ensures |r| == LabelSlots
  {
    seq(LabelSlots, i requires 0 <= i < LabelSlots => if i < |labels| then labels[i] else old_labels[i])
  }

  /** One entry of the Flight-Modes section: its label and its switch text. */
  datatype Mode = Mode(title: string, sw: string)

  function Labels(modes: seq<Mode>): (r: seq<string>)
    ensures |r| == |modes| && forall i :: 0 <= i < |modes| ==> r[i] == modes[i].title
  {
    seq(|modes|, i requires 0 <= i < |modes| => modes[i].title)
  }

  /** A switch decoder: the loop below calls its revision's getSwitch on each mode. */
  type Decoder = string -> LegacySwitches.Named

  /** The revision's getSwitch. */
  function GetSwitchOf(rev: Revision): Decoder {
    if rev == July2020 then s => LegacySwitches.GetSwitchJuly2020(s) else s => LegacySwitches.GetSwitchJune2020(s)
  }

  /** Whether mode i gets through the loop body: its switch decodes and its label has a
      slot (`flugphasen[i]` raises from i == 11 on). */
  predicate Passes(modes: seq<Mode>, i: nat, getSwitch: Decoder)
    requires i < |modes|
  {
    i <= LabelSlots && !getSwitch(modes[i].sw).Raises?
  }

  /** How many modes flightmodes gets through, from mode i on: it stops at the first mode
      that does not pass. */
  function DoneFrom(modes: seq<Mode>, i: nat, getSwitch: Decoder): (n: nat)
    requires i <= |modes| && i <= LabelSlots + 1
    ensures i <= n <= |modes| && n <= LabelSlots + 1
    ensures forall k :: i <= k < n ==> Passes(modes, k, getSwitch)
    ensures n < |modes| ==> !Passes(modes, n, getSwitch)
    decreases |modes| - i
  {
    if i == |modes| || !Passes(modes, i, getSwitch) then i else DoneFrom(modes, i + 1, getSwitch)
  }

  /** The number of modes flightmodes handles before it raises, or all of them. */
  function Done(modes: seq<Mode>, getSwitch: Decoder): (n: nat)
    ensures n <= |modes| && n <= LabelSlots + 1
    ensures forall k :: 0 <= k < n ==> Passes(modes, k, getSwitch)
    ensures n < |modes| ==> !Passes(modes, n, getSwitch)
  {
    DoneFrom(modes, 0, getSwitch)
  }

  /** The first mode that does not pass is where flightmodes stops. */
  lemma {:induction false} DoneAt(modes: seq<Mode>, i: nat, j: nat, getSwitch: Decoder)
    requires j <= i <= |modes| && i <= LabelSlots + 1
    requires forall k :: j <= k < i ==> Passes(modes, k, getSwitch)
    requires i == |modes| || !Passes(modes, i, getSwitch)
    ensures DoneFrom(modes, j, getSwitch) == i
    decreases i - j
  {
    if j < i {
      DoneAt(modes, i, j + 1, getSwitch);
    }
  }

  /** flightmodes: each label at its position until a mode's switch makes getSwitch raise
      or a twelfth mode is reached; an eleventh label lands in the slot that the stored
      number then overwrites. Without a raise the stored number makes mixesmain walk
      exactly the flight modes there are, in both revisions. */
  method FlightModesWith(labels: array<string>, modes: seq<Mode>, rev: Revision, getSwitch: Decoder)
    returns (stored: int, raised: bool)
    requires labels.Length == LabelSlots
    modifies labels
    ensures raised <==> Done(modes, getSwitch) < |modes|
    ensures labels[..] == WithLabels(old(labels[..]), Labels(modes)[..Done(modes, getSwitch)])
    ensures !raised ==> stored == Stored(|modes|, rev) && ModeCount(stored, rev) == |modes|
  {
    ghost var before := labels[..];
    var ind := -1;
    var i := 0;
    while i < |modes|
      invariant 0 <= i <= |modes| && i <= LabelSlots + 1 && ind == i - 1
      invariant forall k :: 0 <= k < i ==> Passes(modes, k, getSwitch)
      invariant forall k :: 0 <= k < LabelSlots ==> labels[k] == if k < i then modes[k].title else before[k]
    {
      ind := ind + 1;
      var sw := getSwitch(modes[i].sw);
      if sw.Raises? || ind > LabelSlots {
        DoneAt(modes, i, 0, getSwitch);
        LabelsSoFar(labels[..], before, modes, i);
        return 0, true;
      }
      if ind < LabelSlots {
        labels[ind] := modes[i].title;
      }
      i := i + 1;
    }
    DoneAt(modes, i, 0, getSwitch);
    LabelsSoFar(labels[..], before, modes, i);
    if rev == July2020 {
      stored := ind;
    } else {
      stored := ind + 1;
    }
    raised := false;
  }

  /** flightmodes of a revision, with that revision's getSwitch. */
  method FlightModes(labels: array<string>, modes: seq<Mode>, rev: Revision) returns (stored: int, raised: bool)
    requires labels.Length == LabelSlots
    modifies labels
    ensures raised <==> Done(modes, GetSwitchOf(rev)) < |modes|
    ensures labels[..] == WithLabels(old(labels[..]), Labels(modes)[..Done(modes, GetSwitchOf(rev))])
    ensures !raised ==> stored == Stored(|modes|, rev) && ModeCount(stored, rev) == |modes|
  {
    stored, raised := FlightModesWith(labels, modes, rev, GetSwitchOf(rev));
  }

  /** The label slots after the first i modes. */
  lemma LabelsSoFar(a: seq<string>, before: seq<string>, modes: seq<Mode>, i: nat)
    requires |a| == LabelSlots && |before| == LabelSlots && i <= |modes|
    requires forall k :: 0 <= k < LabelSlots ==> a[k] == if k < i then modes[k].title else before[k]
    ensures a == WithLabels(before, Labels(modes)[..i])
  {
  }

  /** When every switch decodes, flightmodes raises exactly for more than eleven modes. */
  lemma RaisesPastEleven(modes: seq<Mode>, getSwitch: Decoder)
    requires forall i :: 0 <= i < |modes| ==> !getSwitch(modes[i].sw).Raises?
    ensures Done(modes, getSwitch) < |modes| <==> |modes| > LabelSlots + 1
  {
  }

  /** A switch that makes the July 2020 getSwitch raise (an empty field, say) stops the
      loop at its mode. */
  lemma RaisingSwitchStops(modes: seq<Mode>, i: nat)
    requires i < |modes| && i <= LabelSlots
    requires forall k :: 0 <= k < i ==> Passes(modes, k, GetSwitchOf(July2020))
    requires LegacySwitches.GetSwitchJuly2020(modes[i].sw).Raises?
    ensures Done(modes, GetSwitchOf(July2020)) == i
  {
    DoneAt(modes, i, 0, GetSwitchOf(July2020));
  }

  /** One row of the mix table: the mix, the flight mode and the Mixes-Values entry read. */
  datatype Row = Row(mix: nat, mode: nat, entry: nat)

  /** The rows of mix ii among anz mixes over `count` flight modes. */
  function MixRows(ii: nat, anz: nat, count: nat, global: bool, rev: Revision): (rows: seq<Row>)
    ensures |rows| == if global && rev == July2020 && count > 0 then 1 else count
  {
    var n := if global && rev == July2020 && count > 0 then 1 else count;
    seq(n, jj requires 0 <= jj < n => Row(ii, jj, jj * anz + ii))
  }

  /** The rows of the first n mixes, mix after mix. */
  function Rows(globals: seq<bool>, n: nat, count: nat, rev: Revision): seq<Row>
    requires n <= |globals|
  {
    if n == 0 then [] else Rows(globals, n - 1, count, rev) + MixRows(n - 1, |globals|, count, globals[n - 1], rev)
  }

  /** mixesmain's two loops. */
  method MixesMain(globals: seq<bool>, stored: int, rev: Revision) returns (rows: seq<Row>)
    ensures rows == Rows(globals, |globals|, ModeCount(stored, rev), rev)
  {
    var anz := |globals|;
    var count := if rev == July2020 then stored + 1 else stored;
    ghost var modes := ModeCount(stored, rev);
    assert modes == if count < 0 then 0 else count;
    rows := [];
    for ii := 0 to anz
      invariant rows == Rows(globals, ii, modes, rev)
    {
      ghost var done := rows;
      ghost var mine := MixRows(ii, anz, modes, globals[ii], rev);
      assert Rows(globals, ii + 1, modes, rev) == done + mine;
      var jj := 0;
      while jj < count
        invariant 0 <= jj <= |mine|
        invariant globals[ii] && rev == July2020 ==> jj == 0
        invariant rows == done + mine[..jj]
      {
        RowsGrow(mine, jj, Row(ii, jj, jj * anz + ii));
        rows := rows + [Row(ii, jj, jj * anz + ii)];
        jj := jj + 1;
        if globals[ii] && rev == July2020 {
          assert mine[..jj] == mine;
          break;
        }
      }
      assert mine[..|mine|] == mine;
    }
  }

  lemma RowsGrow(mine: seq<Row>, jj: nat, r: Row)
    requires jj < |mine| && mine[jj] == r
    ensures mine[..jj + 1] == mine[..jj] + [r]
  {
  }

  /** Every row of mix ii reads entry `mode * anz + ii` for one of the flight modes. */
  lemma MixRowsInRange(ii: nat, anz: nat, count: nat, global: bool, rev: Revision, r: Row)
    requires r in MixRows(ii, anz, count, global, rev)
    ensures r.mix == ii && r.mode < count && r.entry == r.mode * anz + ii
  {
  }

  /** Every row reads an entry below anz * count, so Mixes-Values with one entry per mix and
      flight mode is never indexed past its end. */
  lemma {:induction false} RowsInRange(globals: seq<bool>, n: nat, count: nat, rev: Revision, r: Row)
    requires n <= |globals| && r in Rows(globals, n, count, rev)
    ensures r.mix < n && r.mode < count && r.entry == r.mode * |globals| + r.mix
    ensures r.entry < |globals| * count
  {
    if r in Rows(globals, n - 1, count, rev) {
      RowsInRange(globals, n - 1, count, rev, r);
    } else {
      MixRowsInRange(n - 1, |globals|, count, globals[n - 1], rev, r);
      EntryBound(r.mode, r.mix, |globals|, count);
    }
  }

  lemma EntryBound(mode: nat, mix: nat, anz: nat, count: nat)
    requires mode < count && mix < anz
    ensures mode * anz + mix < anz * count
  {
    assert mode * anz + mix < (mode + 1) * anz;
    assert (mode + 1) * anz <= count * anz;
  }

  /** No Mixes-Values entry is read twice. */
  lemma RowsDistinct(globals: seq<bool>, count: nat, rev: Revision, a: Row, b: Row)
    requires a in Rows(globals, |globals|, count, rev) && b in Rows(globals, |globals|, count, rev)
    requires a.entry == b.entry
    ensures a == b
  {
    RowsInRange(globals, |globals|, count, rev, a);
    RowsInRange(globals, |globals|, count, rev, b);
    EntryUnique(a.mode, a.mix, b.mode, b.mix, |globals|);
  }

  /** `mode * anz + mix` with mix < anz determines mode and mix. */
  lemma EntryUnique(m1: nat, x1: nat, m2: nat, x2: nat, anz: nat)
    requires x1 < anz && x2 < anz && m1 * anz + x1 == m2 * anz + x2
    ensures m1 == m2 && x1 == x2
  {
    if m1 < m2 {
      EntryBound(m1, x1, anz, m2);
    } else if m2 < m1 {
      EntryBound(m2, x2, anz, m1);
    }
  }

  /** Where no mix stops early (June 2020, or no global mix), every entry of Mixes-Values
      is read. */
  lemma RowsCover(globals: seq<bool>, count: nat, rev: Revision, k: nat)
    requires rev == June2020 || forall i :: 0 <= i < |globals| ==> !globals[i]
    requires k < |globals| * count
    ensures exists r :: r in Rows(globals, |globals|, count, rev) && r.entry == k
  {
    var anz := |globals|;
    var jj, ii := k / anz, k % anz;
    assert k == jj * anz + ii;
    assert jj < count;
    RowsOfMix(globals, anz, count, rev, ii);
    var rows := MixRows(ii, anz, count, globals[ii], rev);
    assert rows[jj] == Row(ii, jj, k);
  }

  /** The rows of mix ii appear among the rows of every longer prefix. */
  lemma {:induction false} RowsOfMix(globals: seq<bool>, n: nat, count: nat, rev: Revision, ii: nat)
    requires ii < n <= |globals|
    ensures forall r :: r in MixRows(ii, |globals|, count, globals[ii], rev) ==> r in Rows(globals, n, count, rev)
  {
    if ii < n - 1 {
      RowsOfMix(globals, n - 1, count, rev, ii);
    }
  }

  /** In July 2020 a global mix has a single row, for the first flight mode; in June 2020
      it has one per flight mode. */
  lemma GlobalMixRows(globals: seq<bool>, count: nat, ii: nat)
    requires ii < |globals| && globals[ii] && count > 0
    ensures MixRows(ii, |globals|, count, true, July2020) == [Row(ii, 0, ii)]
    ensures |MixRows(ii, |globals|, count, true, June2020)| == count
  {
  }
}
