/** extractPat: the list of hardware controls and switches a model uses. The switch names
    found in the file are filtered to the controls worth listing, P10 is renamed Q10 so that
    it sorts after the other P controls, the names are sorted without repetition in Python's
    string order, and Q10 is shown as P10 again. */
module Patterns {

  /** Python's `<` on strings: code point by code point, a proper prefix first. */
  predicate StrLess(a: string, b: string) {
    if |a| == 0 then |b| > 0
    else if |b| == 0 then false
    else if a[0] != b[0] then a[0] < b[0]
    else StrLess(a[1..], b[1..])
  }

  lemma {:induction false} StrLessIrreflexive(a: string)
    ensures !StrLess(a, a)
  {
    if |a| > 0 {
      StrLessIrreflexive(a[1..]);
    }
  }

  lemma {:induction false} StrLessTransitive(a: string, b: string, c: string)
    requires StrLess(a, b) && StrLess(b, c)
    ensures StrLess(a, c)
  {
    if |a| > 0 && a[0] == b[0] && b[0] == c[0] {
      StrLessTransitive(a[1..], b[1..], c[1..]);
    }
  }

  lemma {:induction false} StrLessTotal(a: string, b: string)
    requires a != b
    ensures StrLess(a, b) || StrLess(b, a)
  {
    if |a| > 0 && |b| > 0 && a[0] == b[0] {
      assert a == [a[0]] + a[1..] && b == [b[0]] + b[1..];
      StrLessTotal(a[1..], b[1..]);
    }
  }

  const Hardware: seq<string> := ["P1", "P2", "P4", "P3", "P5", "P6", "P7", "P8", "SA", "SB",
    "SC", "SD", "SE", "SF", "SG", "SH", "SI", "SJ", "SK", "SL", "P9",
    "P10", "SM", "SN", "SO", "SP"]
  const Accels: seq<string> := ["GX", "GY", "GZ", "G/L", "G/R", "GXL", "GXR", "GHi"]
  const Trims: seq<string> := ["Tr1", "Tr2", "Tr3", "Tr4", "Tr5", "Tr6"]
  const ToBeListed: seq<string> := Hardware + Accels + Trims

  /** The sort key of a listed name: P10 becomes Q10. */
  function SortKey(name: string): string {
    if name != "P10" then name else "Q10"
  }

  /** The name shown for a sort key: Q10 is P10 again. */
  function Shown(key: string): string {
    if key != "Q10" then key else "P10"
  }

  /** No listed control is called Q10, so renaming P10 is undone exactly. */
  lemma ShownSortKey(name: string)
    requires name in ToBeListed
    ensures Shown(SortKey(name)) == name
  {
    NoQ10();
  }

  lemma NoQ10()
    ensures "Q10" !in ToBeListed
  {
    assert "Q10" !in Hardware && "Q10" !in Accels && "Q10" !in Trims;
  }

  /** `swlist`: the sort keys of the listed names, in the order they were found. */
  function Listed(names: seq<string>): (r: seq<string>)
    ensures forall k :: k in r <==> exists n :: n in names && n in ToBeListed && k == SortKey(n)
  {
    if names == [] then []
    else
      var rest := Listed(names[..|names| - 1]);
      var n := names[|names| - 1];
      assert names == names[..|names| - 1] + [n];
      if n in ToBeListed then rest + [SortKey(n)] else rest
  }

  predicate Ascending(s: seq<string>) {
    forall i, j :: 0 <= i < j < |s| ==> StrLess(s[i], s[j])
  }

  function Elems(s: seq<string>): set<string> {
    set x | x in s
  }

  /** One element inserted into an ascending list, unless it is there already. */
  function Insert(r: seq<string>, x: string): (q: seq<string>) {
    if r == [] then [x]
    else if r[0] == x then r
    else if StrLess(x, r[0]) then [x] + r
    else [r[0]] + Insert(r[1..], x)
  }

  lemma {:induction false} InsertAscending(r: seq<string>, x: string)
    requires Ascending(r)
    ensures Ascending(Insert(r, x)) && Elems(Insert(r, x)) == Elems(r) + {x}
  {
    if r == [] {
    } else if r[0] == x {
    } else if StrLess(x, r[0]) {
      var q := [x] + r;
      forall i, j | 0 <= i < j < |q| ensures StrLess(q[i], q[j]) {
        if i == 0 && j > 1 {
          StrLessTransitive(x, r[0], r[j - 1]);
        }
      }
      assert Elems(q) == Elems(r) + {x};
    } else {
      StrLessTotal(x, r[0]);
      var rest := Insert(r[1..], x);
      InsertAscending(r[1..], x);
      var q := [r[0]] + rest;
      forall i, j | 0 <= i < j < |q| ensures StrLess(q[i], q[j]) {
        if i == 0 {
          assert q[j] in Elems(r[1..]) + {x};
        }
      }
      assert r == [r[0]] + r[1..];
      assert Elems(q) == {r[0]} + Elems(rest);
    }
  }

  /** `sorted(set(xs))`. */
  function SortedSet(xs: seq<string>): seq<string> {
    if xs == [] then [] else Insert(SortedSet(xs[..|xs| - 1]), xs[|xs| - 1])
  }

  lemma {:induction false} SortedSetSpec(xs: seq<string>)
    ensures Ascending(SortedSet(xs)) && Elems(SortedSet(xs)) == Elems(xs)
  {
    if xs != [] {
      var front := xs[..|xs| - 1];
      SortedSetSpec(front);
      InsertAscending(SortedSet(front), xs[|xs| - 1]);
      assert xs == front + [xs[|xs| - 1]];
      assert Elems(xs) == Elems(front) + {xs[|xs| - 1]};
    }
  }

  lemma HeadInElems(a: seq<string>)
    ensures a != [] ==> a[0] in Elems(a)
  {
  }

  /** The head of an ascending list is below every other element. */
  lemma AscendingHead(a: seq<string>, x: string)
    requires Ascending(a) && x in Elems(a) && x != a[0]
    ensures StrLess(a[0], x)
  {
    var k :| 0 <= k < |a| && a[k] == x;
  }

  /** An ascending list has no element twice, so dropping its head drops one element. */
  lemma AscendingTail(a: seq<string>)
    requires Ascending(a) && a != []
    ensures Elems(a[1..]) == Elems(a) - {a[0]}
  {
    forall k | 0 < k < |a| ensures a[k] != a[0] {
      StrLessIrreflexive(a[0]);
    }
    assert a == [a[0]] + a[1..];
  }

  /** An ascending list is determined by its elements, so `sorted(set(xs))` is the only
      ascending list of the elements of xs. */
  lemma {:induction false} AscendingUnique(a: seq<string>, b: seq<string>)
    requires Ascending(a) && Ascending(b) && Elems(a) == Elems(b)
    ensures a == b
  {
    if a != [] {
      assert a[0] in Elems(b);
      if a[0] != b[0] {
        AscendingHead(a, b[0]);
        AscendingHead(b, a[0]);
        StrLessTransitive(a[0], b[0], a[0]);
        StrLessIrreflexive(a[0]);
      }
      AscendingTail(a);
      AscendingTail(b);
      AscendingUnique(a[1..], b[1..]);
      assert a == [a[0]] + a[1..] && b == [b[0]] + b[1..];
    } else {
      HeadInElems(b);
    }
  }

  /** The sort keys of a listing. */
  function Keys(out: seq<string>): seq<string> {
    seq(|out|, i requires 0 <= i < |out| => SortKey(out[i]))
  }

  /** A listing of the controls found: each listed control that was found, once, and
      nothing else, ordered by sort key. */
  ghost predicate IsListing(found: seq<string>, out: seq<string>) {
    (forall n :: n in out <==> n in found && n in ToBeListed) && Ascending(Keys(out))
  }

  /** The lines extractPat writes for the switch names found in a model file. */
  method ExtractPat(found: seq<string>) returns (out: seq<string>)
    ensures IsListing(found, out)
  {
    var swlist := [];
    var i := 0;
    while i < |found|
      invariant 0 <= i <= |found| && swlist == Listed(found[..i])
    {
      assert found[..i + 1][..i] == found[..i];
      var sw := found[i];
      var sw2 := if sw != "P10" then sw else "Q10";
      if sw in ToBeListed {
        swlist := swlist + [sw2];
      }
      i := i + 1;
    }
    assert found[..i] == found;
    var swlist2 := SortedSet(swlist);
    out := [];
    var j := 0;
    while j < |swlist2|
      invariant 0 <= j <= |swlist2| && |out| == j
      invariant forall k :: 0 <= k < j ==> out[k] == Shown(swlist2[k])
    {
      out := out + [if swlist2[j] != "Q10" then swlist2[j] else "P10"];
      j := j + 1;
    }
    ShownIsListing(found, out);
  }

  /** Showing `sorted(set(swlist))` with Q10 as P10 gives a listing. */
  lemma ShownIsListing(found: seq<string>, out: seq<string>)
    requires |out| == |SortedSet(Listed(found))|
    requires forall i :: 0 <= i < |out| ==> out[i] == Shown(SortedSet(Listed(found))[i])
    ensures IsListing(found, out)
  {
    var s := SortedSet(Listed(found));
    SortedSetSpec(Listed(found));
    forall i | 0 <= i < |s| ensures Keys(out)[i] == s[i] {
      assert s[i] in Elems(Listed(found));
    }
    assert Keys(out) == s;
    forall n ensures n in out <==> n in found && n in ToBeListed {
      if n in out {
        var i :| 0 <= i < |out| && out[i] == n;
        assert s[i] in Elems(Listed(found));
        var m :| m in found && m in ToBeListed && s[i] == SortKey(m);
        ShownSortKey(m);
      }
      if n in found && n in ToBeListed {
        assert SortKey(n) in Elems(s);
        var i :| 0 <= i < |s| && s[i] == SortKey(n);
        ShownSortKey(n);
        assert out[i] == n;
      }
    }
  }

  /** There is only one listing of what was found: the order of extractPat's output is
      fixed by the sort keys alone. */
  lemma ListingDetermined(found: seq<string>, a: seq<string>, b: seq<string>)
    requires IsListing(found, a) && IsListing(found, b)
    ensures a == b
  {
    KeysCovered(found, a, b);
    KeysCovered(found, b, a);
    AscendingUnique(Keys(a), Keys(b));
    forall i | 0 <= i < |a| ensures a[i] == b[i] {
      assert Keys(a)[i] == Keys(b)[i];
      assert a[i] in ToBeListed && b[i] in ToBeListed;
      ShownSortKey(a[i]);
      ShownSortKey(b[i]);
    }
  }

  /** Every sort key of one listing is a sort key of another listing of the same finds. */
  lemma KeysCovered(found: seq<string>, a: seq<string>, b: seq<string>)
    requires IsListing(found, a) && IsListing(found, b)
    ensures Elems(Keys(a)) <= Elems(Keys(b))
  {
    forall k | k in Elems(Keys(a)) ensures k in Elems(Keys(b)) {
      var i :| 0 <= i < |a| && Keys(a)[i] == k;
      assert a[i] in b;
      var j :| 0 <= j < |b| && b[j] == a[i];
      assert Keys(b)[j] == k;
    }
  }

  /** The renaming puts P10 after every other P control and before every S control. */
  lemma P10AfterP9(p: string, sw: string)
    requires p in Hardware && p[0] == 'P' && p != "P10"
    requires sw in Hardware && sw[0] == 'S'
    ensures StrLess(SortKey(p), SortKey("P10")) && StrLess(SortKey("P10"), SortKey(sw))
    ensures StrLess("P10", "P2")
  {
  }
}
