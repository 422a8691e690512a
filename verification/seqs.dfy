/** Sequence helpers standing in for the standard algorithms the core calls
    (`std::transform`, `std::copy_if`, `std::find_if`). Each is stated by its
    meaning so that the modules using it inherit a readable contract. */
module Seqs {
  import opened Wrappers

  /** `std::transform`: the image of every element, in order. */
  function MapSeq<A, B>(s: seq<A>, f: A -> B): (r: seq<B>)
    ensures |r| == |s|
    ensures forall i :: 0 <= i < |s| ==> r[i] == f(s[i])
  {
    seq(|s|, i requires 0 <= i < |s| => f(s[i]))
  }

  /** `std::copy_if`: the elements satisfying `p`, in their original order. */
  function Keep<T>(s: seq<T>, p: T -> bool): (r: seq<T>)
    ensures |r| <= |s|
    ensures forall i :: 0 <= i < |r| ==> r[i] in s && p(r[i])
    ensures forall i :: 0 <= i < |s| && p(s[i]) ==> s[i] in r
    decreases |s|
  {
    if s == [] then []
    else (if p(s[0]) then [s[0]] else []) + Keep(s[1..], p)
  }

  /** Filtering a concatenation filters each part and keeps them in order:
      together with the one-element case this pins down the order of `Keep`. */
  lemma {:induction false} KeepAppend<T>(a: seq<T>, b: seq<T>, p: T -> bool)
    ensures Keep(a + b, p) == Keep(a, p) + Keep(b, p)
    decreases |a|
  {
    if a == [] {
      assert a + b == b;
    } else {
      assert (a + b)[0] == a[0];
      assert (a + b)[1..] == a[1..] + b;
      KeepAppend(a[1..], b, p);
    }
  }

  /** Filtering a transformed sequence, one element at a time: the first
      image is kept or dropped, then the rest follows in order. */
  lemma KeepMapCons<A, B>(s: seq<A>, f: A -> B, p: B -> bool)
    requires s != []
    ensures Keep(MapSeq(s, f), p) == (if p(f(s[0])) then [f(s[0])] else []) + Keep(MapSeq(s[1..], f), p)
  {
    var m := MapSeq(s, f);
    assert m == [f(s[0])] + MapSeq(s[1..], f);
    KeepAppend([f(s[0])], MapSeq(s[1..], f), p);
    var one := [f(s[0])];
    assert one[1..] == [];
  }

  /** `std::find_if` from position `k`: the first index at or after `k`
      whose element satisfies `p`. */
  function FirstIndexFrom<T>(s: seq<T>, p: T -> bool, k: nat): (r: Option<nat>)
    requires k <= |s|
    ensures r.None? <==> forall i :: k <= i < |s| ==> !p(s[i])
    ensures r.Some? ==> k <= r.value < |s| && p(s[r.value])
    ensures r.Some? ==> forall j :: k <= j < r.value ==> !p(s[j])
    decreases |s| - k
  {
    if k == |s| then None
    else if p(s[k]) then Some(k)
    else FirstIndexFrom(s, p, k + 1)
  }

  /** `std::find_if` over the whole sequence. */
  function FirstIndex<T>(s: seq<T>, p: T -> bool): (r: Option<nat>)
    ensures r.None? <==> forall i :: 0 <= i < |s| ==> !p(s[i])
    ensures r.Some? ==> r.value < |s| && p(s[r.value])
    ensures r.Some? ==> forall j :: 0 <= j < r.value ==> !p(s[j])
  {
    FirstIndexFrom(s, p, 0)
  }
}
