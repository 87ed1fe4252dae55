/** The parts of Python's list semantics that the viewer relies on: indexing that
    counts negative positions from the end and raises past either end, slot
    assignment, and `list.index`, which returns the first occurrence. */
module PyList {

  datatype Option<T> = None | Some(value: T)

  /** The indices Python accepts for a list of length `n`: `-n <= i < n`. */
  predicate Indexable(n: int, i: int) {
    -n <= i < n
  }

  /** The position that Python's `s[i]` designates in a list of length `n`. */
  function Slot(n: nat, i: int): (k: nat)
    requires Indexable(n, i)
    ensures k < n
    ensures i >= 0 ==> k == i
    ensures i < 0 ==> k == n + i
  {
    if i < 0 then n + i else i
  }

  /** `s[i]`, or None where Python raises IndexError. */
  function At<T>(s: seq<T>, i: int): (r: Option<T>)
    ensures r.Some? <==> Indexable(|s|, i)
    ensures 0 <= i < |s| ==> r == Some(s[i])
    ensures -|s| <= i < 0 ==> r == Some(s[|s| + i])
  {
    if Indexable(|s|, i) then Some(s[Slot(|s|, i)]) else None
  }

  /** `s.index(x)`: the first position holding `x`, or None where Python raises ValueError. */
  function IndexOf<T(==)>(s: seq<T>, x: T): (r: Option<nat>)
    ensures r.None? <==> x !in s
    ensures r.Some? ==> r.value < |s| && s[r.value] == x && x !in s[..r.value]
  {
    if |s| == 0 then None
    else if s[0] == x then Some(0)
    else
      match IndexOf(s[1..], x)
      case None => None
      case Some(k) =>
        assert s[..k + 1] == [s[0]] + s[1..][..k];
        Some(k + 1)
  }

  /** Every update of `ups` targets an index Python accepts for a list of length `n`. */
  predicate AllIndexable<T>(n: nat, ups: seq<(int, T)>) {
    forall j :: 0 <= j < |ups| ==> Indexable(n, ups[j].0)
  }

  /** Every update of `ups` can be indexed and none reaches slot k. */
  predicate Misses<T>(n: nat, ups: seq<(int, T)>, k: int) {
    AllIndexable(n, ups) && forall j :: 0 <= j < |ups| ==> Slot(n, ups[j].0) != k
  }

  /** The list after the statements `s[i] = v` for each `(i, v)` of `ups`, in order. */
  function Assign<T>(s: seq<T>, ups: seq<(int, T)>): (r: seq<T>)
    requires AllIndexable(|s|, ups)
    ensures |r| == |s|
    decreases |ups|
  {
    if ups == [] then s
    else
      var last := ups[|ups| - 1];
      Assign(s, ups[..|ups| - 1])[Slot(|s|, last.0) := last.1]
  }

  /** One more statement of `ups` carried out. */
  lemma AssignStep<T>(s: seq<T>, ups: seq<(int, T)>, i: nat)
    requires i < |ups| && AllIndexable(|s|, ups[..i]) && Indexable(|s|, ups[i].0)
    ensures AllIndexable(|s|, ups[..i + 1])
    ensures Assign(s, ups[..i + 1]) == Assign(s, ups[..i])[Slot(|s|, ups[i].0) := ups[i].1]
  {
    assert ups[..i + 1][..i] == ups[..i];
  }

  /** One more statement appended to `ups`. */
  lemma AssignSnoc<T>(s: seq<T>, ups: seq<(int, T)>, x: (int, T))
    requires AllIndexable(|s|, ups) && Indexable(|s|, x.0)
    ensures AllIndexable(|s|, ups + [x])
    ensures Assign(s, ups + [x]) == Assign(s, ups)[Slot(|s|, x.0) := x.1]
  {
    assert (ups + [x])[..|ups|] == ups;
  }

  /** `s.index(x)` is the position of the first occurrence of x. */
  lemma IndexOfAt<T>(s: seq<T>, x: T, p: nat)
    requires p < |s| && s[p] == x && x !in s[..p]
    ensures IndexOf(s, x) == Some(p)
  {
    var r := IndexOf(s, x);
    assert r.Some? by {
      assert s[p] in s;
    }
  }

  /** A slot no update targets keeps its value. */
  lemma {:induction false} AssignUntouched<T>(s: seq<T>, ups: seq<(int, T)>, k: nat)
    requires k < |s| && Misses(|s|, ups, k)
    ensures Assign(s, ups)[k] == s[k]
    decreases |ups|
  {
    if ups != [] {
      AssignUntouched(s, ups[..|ups| - 1], k);
    }
  }

  /** A slot holds the value of the last update that targets it. */
  lemma {:induction false} AssignLastWriter<T>(s: seq<T>, ups: seq<(int, T)>, j: nat)
    requires AllIndexable(|s|, ups) && j < |ups|
    requires forall j' :: j < j' < |ups| ==> Slot(|s|, ups[j'].0) != Slot(|s|, ups[j].0)
    ensures Assign(s, ups)[Slot(|s|, ups[j].0)] == ups[j].1
    decreases |ups|
  {
    if j < |ups| - 1 {
      AssignLastWriter(s, ups[..|ups| - 1], j);
    }
  }
}
