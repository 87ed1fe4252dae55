/** typespecific, the table part: the model's airframe settings (wing and tail type,
    motor, gear and airbrake counts) become the servo-count vector the later report
    sections read (ailerons, flaps, elevators, rudders, airbrakes, motors, gears, a flag
    for a mixed tail, and the name of the tail mixer). The current revision and two
    earlier ones share the loop; they differ in the bounds checks, in whether an
    out-of-range index counts as unknown data and in what a missing Model-Type does. */
module TypeSpecific {
  import opened PyList
  import opened Values

  /** jemoview-2023-01-31.py, jemoview.py (2020-07-24) and jemoview-2020-06-11.py. */
  datatype Revision = Current | July2020 | June2020

  /** Aileron and flap servos for each wing type. */
  const WingAilerons: seq<int> := [1, 2, 2, 2, 4, 2, 4]
  const WingFlaps: seq<int> := [0, 0, 1, 2, 2, 4, 4]
  /** Elevator and rudder servos for each tail type; the oldest revision knows the first five. */
  const TailElevators: seq<int> := [1, 2, 2, 2, 2, 0]
  const TailRudders: seq<int> := [1, 2, 1, 2, 1, 0]

  function TailTypes(rev: Revision): (n: nat)
    ensures n <= |TailElevators|
  {
    if rev == June2020 then 5 else 6
  }

  /** The servo-count vector (`aferatgt`, `qwhssafbd` in the older revisions). */
  datatype Airframe = Airframe(ailerons: int, flaps: int, elevators: int, rudders: int,
                               airbrakes: int, motors: int, gears: int, tailMixed: int, tailMix: string)

  /** The vector as every revision resets it before a document. */
  const Blank := Airframe(0, 0, 0, 0, 0, 0, 0, 0, "")

  /** One entry of the Type-Specific section, its value already an integer. */
  datatype Item = Item(key: string, value: int)

  /** The name of the mixer a tail type needs, if any; the older revisions are German only. */
  function TailMixName(ind: int, rev: Revision, lang: Lang): Option<string> {
    var de := rev != Current || lang == De;
    if ind == 1 then Some(if de then "V-Leitwerksmischer" else "V-Tail Mix")
    else if ind == 2 then Some("Ailevator")
    else if ind == 4 then Some(if de then "Delta/Elevon Mischer" else "Delta/Elevon Mix")
    else None
  }

  /** The loop variables: the vector, the unknown-data count and whether Python raised. */
  datatype Progress = Progress(frame: Airframe, unknowns: nat, raised: bool)

  /** A type index the revision cannot look up: below the negative range always, and past
      the end in the oldest revision, which has no bounds check. */
  predicate BadIndex(ind: int, n: nat, rev: Revision) {
    ind < -(n as int) || (rev == June2020 && ind >= n)
  }

  /** A type index the revision replaces by zeros (and, in the current one, counts as unknown). */
  predicate PastEnd(ind: int, n: nat, rev: Revision) {
    rev != June2020 && ind >= n
  }

  function ApplyWing(p: Progress, ind: int, rev: Revision): Progress {
    if PastEnd(ind, 7, rev) then
      Progress(p.frame.(ailerons := 0, flaps := 0), p.unknowns + (if rev == Current then 1 else 0), false)
    else if BadIndex(ind, 7, rev) then p.(raised := true)
    else
      var k := Slot(7, ind);
      p.(frame := p.frame.(ailerons := WingAilerons[k], flaps := WingFlaps[k]))
  }

  function ApplyTail(p: Progress, ind: int, rev: Revision, lang: Lang): Progress {
    var n := TailTypes(rev);
    if PastEnd(ind, n, rev) then
      Progress(p.frame.(elevators := 0, rudders := 0), p.unknowns + (if rev == Current then 1 else 0), false)
    else if BadIndex(ind, n, rev) then p.(raised := true)
    else
      var k := Slot(n, ind);
      var f := p.frame.(elevators := TailElevators[k], rudders := TailRudders[k]);
      var f' :=
        match TailMixName(ind, rev, lang)
        case None => f
        case Some(name) => f.(tailMix := name,
                              tailMixed := if ind == 4 || (ind == 2 && f.ailerons >= 2) then 1 else f.tailMixed);
      p.(frame := f')
  }

  /** One pass of the loop over the Type-Specific entries. */
  function ApplyItem(p: Progress, it: Item, rev: Revision, lang: Lang): Progress {
    if p.raised then p
    else if it.key == "Wing-Type" then ApplyWing(p, it.value, rev)
    else if it.key == "Tail-Type" then ApplyTail(p, it.value, rev, lang)
    else if it.key == "Motor-Count" then p.(frame := p.frame.(motors := it.value))
    else if it.key == "Gear-Servos" then p.(frame := p.frame.(gears := it.value))
    else if it.key == "Airbrake-Servos" then p.(frame := p.frame.(airbrakes := it.value))
    else p
  }

  /** The loop variables after the entries of `items`, in order. */
  function ApplyAll(p: Progress, items: seq<Item>, rev: Revision, lang: Lang): Progress {
    if items == [] then p
    else ApplyItem(ApplyAll(p, items[..|items| - 1], rev, lang), items[|items| - 1], rev, lang)
  }

  datatype Outcome = Raised | Configured(frame: Airframe, unknowns: nat)

  /** The whole of typespecific: a model type other than Aero leaves the vector alone; a
      missing one counts as unknown in the current revision and raises KeyError before. */
  function Configure(init: Airframe, modelType: Option<string>, items: seq<Item>, rev: Revision, lang: Lang): (r: Outcome)
    ensures modelType.Some? && modelType.value != "Aero" ==> r == Configured(init, 0)
    ensures r.Raised? ==> modelType.None? || modelType == Some("Aero")
  {
    if modelType.Some? && modelType.value != "Aero" then Configured(init, 0)
    else if modelType.None? && rev != Current then Raised
    else
      var p := ApplyAll(Progress(init, if modelType.None? then 1 else 0, false), items, rev, lang);
      if p.raised then Raised else Configured(p.frame, p.unknowns)
  }

  /** The Wing-Type branch of the loop body. */
  method ReadWing(frame: Airframe, unknowns: nat, ind: int, rev: Revision)
    returns (frame': Airframe, unknowns': nat, raised: bool)
    ensures ApplyWing(Progress(frame, unknowns, false), ind, rev) == Progress(frame', unknowns', raised)
  {
    frame', unknowns', raised := frame, unknowns, false;
    if PastEnd(ind, 7, rev) {
      frame' := frame.(ailerons := 0, flaps := 0);
      if rev == Current {
        unknowns' := unknowns + 1;
      }
    } else if BadIndex(ind, 7, rev) {
      raised := true;
    } else {
      var k := Slot(7, ind);
      frame' := frame.(ailerons := WingAilerons[k], flaps := WingFlaps[k]);
    }
  }

  /** The Tail-Type branch of the loop body. */
  method ReadTail(frame: Airframe, unknowns: nat, ind: int, rev: Revision, lang: Lang)
    returns (frame': Airframe, unknowns': nat, raised: bool)
    ensures ApplyTail(Progress(frame, unknowns, false), ind, rev, lang) == Progress(frame', unknowns', raised)
  {
    var n := TailTypes(rev);
    frame', unknowns', raised := frame, unknowns, false;
    if PastEnd(ind, n, rev) {
      frame' := frame.(elevators := 0, rudders := 0);
      if rev == Current {
        unknowns' := unknowns + 1;
      }
    } else if BadIndex(ind, n, rev) {
      raised := true;
    } else {
      var k := Slot(n, ind);
      frame' := frame.(elevators := TailElevators[k], rudders := TailRudders[k]);
      var mix := TailMixName(ind, rev, lang);
      if mix.Some? {
        frame' := frame'.(tailMix := mix.value);
        if ind == 4 || (ind == 2 && frame'.ailerons >= 2) {
          frame' := frame'.(tailMixed := 1);
        }
      }
    }
  }

  /** The loop of typespecific, proved against Configure. */
  method ConfigureLoop(init: Airframe, modelType: Option<string>, items: seq<Item>, rev: Revision, lang: Lang)
    returns (frame: Airframe, unknowns: nat, raised: bool)
    ensures raised <==> Configure(init, modelType, items, rev, lang).Raised?
    ensures !raised ==> Configure(init, modelType, items, rev, lang) == Configured(frame, unknowns)
  {
    if modelType.Some? && modelType.value != "Aero" {
      return init, 0, false;
    }
    if modelType.None? && rev != Current {
      return init, 0, true;
    }
    frame, unknowns, raised := init, if modelType.None? then 1 else 0, false;
    var i := 0;
    while i < |items| && !raised
      invariant 0 <= i <= |items|
      invariant ApplyAll(Progress(init, if modelType.None? then 1 else 0, false), items[..i], rev, lang)
             == Progress(frame, unknowns, raised)
    {
      assert items[..i + 1][..i] == items[..i];
      var it := items[i];
      if it.key == "Wing-Type" {
        frame, unknowns, raised := ReadWing(frame, unknowns, it.value, rev);
      } else if it.key == "Tail-Type" {
        frame, unknowns, raised := ReadTail(frame, unknowns, it.value, rev, lang);
      } else if it.key == "Motor-Count" {
        frame := frame.(motors := it.value);
      } else if it.key == "Gear-Servos" {
        frame := frame.(gears := it.value);
      } else if it.key == "Airbrake-Servos" {
        frame := frame.(airbrakes := it.value);
      }
      i := i + 1;
    }
    AppliedAfterRaise(Progress(init, if modelType.None? then 1 else 0, false), items[..i], items[i..], rev, lang);
    assert items[..i] + items[i..] == items;
  }

  /** Once the loop has raised, later entries change nothing. */
  lemma {:induction false} AppliedAfterRaise(p: Progress, s: seq<Item>, rest: seq<Item>, rev: Revision, lang: Lang)
    requires ApplyAll(p, s, rev, lang).raised || rest == []
    ensures ApplyAll(p, s + rest, rev, lang) == ApplyAll(p, s, rev, lang)
    decreases |rest|
  {
    if rest == [] {
      assert s + rest == s;
    } else {
      var front := rest[..|rest| - 1];
      assert (s + rest)[..|s + rest| - 1] == s + front;
      AppliedAfterRaise(p, s, front, rev, lang);
    }
  }

  // ---------------------------------------------------------------- properties

  /** An entry whose type index cannot be looked up. */
  predicate Unreadable(it: Item, rev: Revision) {
    (it.key == "Wing-Type" && BadIndex(it.value, 7, rev))
    || (it.key == "Tail-Type" && BadIndex(it.value, TailTypes(rev), rev))
  }

  /** One entry raises exactly when its index cannot be looked up. */
  lemma ItemRaises(q: Progress, it: Item, rev: Revision, lang: Lang)
    ensures ApplyItem(q, it, rev, lang).raised <==> q.raised || Unreadable(it, rev)
  {
  }

  /** The loop raises exactly when some entry has an index it cannot look up. */
  lemma {:induction false} RaisesIff(p: Progress, items: seq<Item>, rev: Revision, lang: Lang)
    requires !p.raised
    ensures ApplyAll(p, items, rev, lang).raised <==> exists k :: 0 <= k < |items| && Unreadable(items[k], rev)
  {
    if items != [] {
      var front := items[..|items| - 1];
      RaisesIff(p, front, rev, lang);
      ItemRaises(ApplyAll(p, front, rev, lang), items[|items| - 1], rev, lang);
      if exists k :: 0 <= k < |front| && Unreadable(front[k], rev) {
        var k :| 0 <= k < |front| && Unreadable(front[k], rev);
        assert items[k] == front[k];
      }
      if exists k :: 0 <= k < |items| && Unreadable(items[k], rev) {
        var k :| 0 <= k < |items| && Unreadable(items[k], rev);
        if k < |front| {
          assert front[k] == items[k];
        }
      }
    }
  }

  /** An entry the current revision replaces by zeros and counts as unknown data. */
  function Unknown(it: Item, rev: Revision): nat {
    if (it.key == "Wing-Type" && PastEnd(it.value, 7, rev))
       || (it.key == "Tail-Type" && PastEnd(it.value, TailTypes(rev), rev)) then 1 else 0
  }

  function CountUnknown(items: seq<Item>, rev: Revision): nat {
    if items == [] then 0 else CountUnknown(items[..|items| - 1], rev) + Unknown(items[|items| - 1], rev)
  }

  /** In the current revision every wing or tail index past its table adds one to the
      unknown-data count, and nothing else does; the earlier revisions count nothing. */
  lemma {:induction false} UnknownsCounted(p: Progress, items: seq<Item>, rev: Revision, lang: Lang)
    requires !p.raised && !ApplyAll(p, items, rev, lang).raised
    ensures ApplyAll(p, items, rev, lang).unknowns
         == p.unknowns + (if rev == Current then CountUnknown(items, rev) else 0)
  {
    if items != [] {
      UnknownsCounted(p, items[..|items| - 1], rev, lang);
    }
  }

  /** The last readable Wing-Type entry decides the aileron and flap counts. */
  lemma {:induction false} LastWingDecides(p: Progress, items: seq<Item>, rev: Revision, lang: Lang, k: nat)
    requires !p.raised && !ApplyAll(p, items, rev, lang).raised
    requires k < |items| && items[k].key == "Wing-Type" && Indexable(7, items[k].value) && !PastEnd(items[k].value, 7, rev)
    requires forall j :: k < j < |items| ==> items[j].key != "Wing-Type"
    ensures ApplyAll(p, items, rev, lang).frame.ailerons == WingAilerons[Slot(7, items[k].value)]
    ensures ApplyAll(p, items, rev, lang).frame.flaps == WingFlaps[Slot(7, items[k].value)]
  {
    var front, last := items[..|items| - 1], items[|items| - 1];
    if k < |items| - 1 {
      LastWingDecides(p, front, rev, lang, k);
      WingKept(ApplyAll(p, front, rev, lang), last, rev, lang);
    } else {
      WingSet(ApplyAll(p, front, rev, lang), last, rev, lang);
    }
  }

  /** An entry other than Wing-Type leaves the aileron and flap counts alone. */
  lemma WingKept(q: Progress, it: Item, rev: Revision, lang: Lang)
    requires it.key != "Wing-Type"
    ensures ApplyItem(q, it, rev, lang).frame.ailerons == q.frame.ailerons
    ensures ApplyItem(q, it, rev, lang).frame.flaps == q.frame.flaps
  {
  }

  /** A readable Wing-Type entry sets both counts from the wing tables. */
  lemma WingSet(q: Progress, it: Item, rev: Revision, lang: Lang)
    requires !q.raised && it.key == "Wing-Type" && Indexable(7, it.value) && !PastEnd(it.value, 7, rev)
    ensures ApplyItem(q, it, rev, lang).frame.ailerons == WingAilerons[Slot(7, it.value)]
    ensures ApplyItem(q, it, rev, lang).frame.flaps == WingFlaps[Slot(7, it.value)]
  {
  }

  /** A Tail-Type entry that makes the tail mixed: Delta/Elevon always, Ailevator when the
      wing read so far has at least two ailerons. */
  predicate MixesTail(it: Item, ailerons: int, rev: Revision) {
    it.key == "Tail-Type" && (it.value == 4 || (it.value == 2 && ailerons >= 2))
  }

  /** One entry sets the mixed-tail flag exactly when it mixes the tail, and otherwise keeps it. */
  lemma TailMixedStep(q: Progress, it: Item, rev: Revision, lang: Lang)
    requires !q.raised && !ApplyItem(q, it, rev, lang).raised
    ensures ApplyItem(q, it, rev, lang).frame.tailMixed
         == if MixesTail(it, q.frame.ailerons, rev) then 1 else q.frame.tailMixed
  {
  }

  /** Entry k of items mixes the tail, judged with the aileron count in force when it is read. */
  predicate MixedAt(p: Progress, items: seq<Item>, rev: Revision, lang: Lang, k: int) {
    0 <= k < |items| && MixesTail(items[k], ApplyAll(p, items[..k], rev, lang).frame.ailerons, rev)
  }

  /** An entry before the last is judged alike with or without the last entry. */
  lemma MixedAtFront(p: Progress, items: seq<Item>, rev: Revision, lang: Lang, k: int)
    requires 0 <= k < |items| - 1
    ensures MixedAt(p, items, rev, lang, k) <==> MixedAt(p, items[..|items| - 1], rev, lang, k)
  {
    assert items[..|items| - 1][..k] == items[..k];
  }

  /** The mixed-tail flag is set exactly when it was set before or some Tail-Type entry
      mixes the tail, judged with the aileron count in force when that entry is read. */
  lemma {:induction false} TailMixedIff(p: Progress, items: seq<Item>, rev: Revision, lang: Lang)
    requires !p.raised && !ApplyAll(p, items, rev, lang).raised && p.frame.tailMixed in {0, 1}
    ensures ApplyAll(p, items, rev, lang).frame.tailMixed in {0, 1}
    ensures ApplyAll(p, items, rev, lang).frame.tailMixed == 1
        <==> p.frame.tailMixed == 1 || exists k :: MixedAt(p, items, rev, lang, k)
  {
    if items != [] {
      var front := items[..|items| - 1];
      var it := items[|items| - 1];
      var q := ApplyAll(p, front, rev, lang);
      assert ApplyAll(p, items, rev, lang) == ApplyItem(q, it, rev, lang);
      TailMixedIff(p, front, rev, lang);
      TailMixedStep(q, it, rev, lang);
      assert MixedAt(p, items, rev, lang, |front|) <==> MixesTail(it, q.frame.ailerons, rev);
      if exists k :: MixedAt(p, front, rev, lang, k) {
        var k :| MixedAt(p, front, rev, lang, k);
        MixedAtFront(p, items, rev, lang, k);
      }
      if exists k :: MixedAt(p, items, rev, lang, k) {
        var k :| MixedAt(p, items, rev, lang, k);
        if k < |front| {
          MixedAtFront(p, items, rev, lang, k);
        }
      }
    }
  }
}
