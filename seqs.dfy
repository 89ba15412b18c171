/** Selection of rows by a boolean mask, `df[mask]`, on sequences. */
module Seqs {

  /** The elements of `s` on which `p` holds, in their original order. */
  function Filter<T>(p: T -> bool, s: seq<T>): (r: seq<T>)
    ensures |r| <= |s|
    ensures forall i :: 0 <= i < |r| ==> p(r[i]) && r[i] in s
    ensures forall i :: 0 <= i < |s| && p(s[i]) ==> s[i] in r
    decreases |s|
  {
    if s == [] then []
    else
      var init, last := s[..|s| - 1], s[|s| - 1];
      assert s == init + [last];
      Filter(p, init) + (if p(last) then [last] else [])
  }

  /** The positions of `s` on which `p` holds, in increasing order. */
  function KeptIndices<T>(p: T -> bool, s: seq<T>): (idx: seq<nat>)
    ensures forall k :: 0 <= k < |idx| ==> idx[k] < |s| && p(s[idx[k]])
    ensures forall k, l :: 0 <= k < l < |idx| ==> idx[k] < idx[l]
    ensures forall i :: 0 <= i < |s| && p(s[i]) ==> i in idx
    decreases |s|
  {
    if s == [] then []
    else
      var n := |s| - 1;
      KeptIndices(p, s[..n]) + (if p(s[n]) then [n] else [])
  }

  /** Order preservation: the filtered sequence is exactly `s` read at the
      kept positions, in increasing order, so the survivors form a
      subsequence of `s`. */
  lemma {:induction false} FilterSelectsKeptIndices<T>(p: T -> bool, s: seq<T>)
    ensures |Filter(p, s)| == |KeptIndices(p, s)|
    ensures forall k :: 0 <= k < |Filter(p, s)| ==> Filter(p, s)[k] == s[KeptIndices(p, s)[k]]
    decreases |s|
  {
    if s != [] {
      var n := |s| - 1;
      FilterSelectsKeptIndices(p, s[..n]);
    }
  }

  /** Locality: filtering a concatenation filters each part on its own, so
      whether an element is kept depends on that element alone. */
  lemma {:induction false} FilterConcat<T>(p: T -> bool, a: seq<T>, b: seq<T>)
    ensures Filter(p, a + b) == Filter(p, a) + Filter(p, b)
    decreases |b|
  {
    if b == [] {
      assert a + b == a;
    } else {
      var init := b[..|b| - 1];
      FilterConcat(p, a, init);
      assert (a + b)[..|a + b| - 1] == a + init;
    }
  }

  /** Filtering a one-element sequence keeps the element exactly when `p`
      holds of it. */
  lemma FilterSingleton<T>(p: T -> bool, x: T)
    ensures Filter(p, [x]) == if p(x) then [x] else []
  {
    assert [x][..0] == [];
  }

  /** Extending the input by one element extends the result by that element
      when it satisfies `p`, and not at all otherwise. */
  lemma FilterSnoc<T>(p: T -> bool, s: seq<T>, x: T)
    ensures Filter(p, s + [x]) == Filter(p, s) + (if p(x) then [x] else [])
  {
    assert (s + [x])[..|s|] == s;
  }

  /** The result is empty exactly when no element satisfies `p`. */
  lemma FilterEmptyIff<T>(p: T -> bool, s: seq<T>)
    ensures Filter(p, s) == [] <==> forall i :: 0 <= i < |s| ==> !p(s[i])
  {
    if Filter(p, s) != [] {
      assert Filter(p, s)[0] in Filter(p, s);
    }
    if exists i :: 0 <= i < |s| && p(s[i]) {
      var i :| 0 <= i < |s| && p(s[i]);
      assert s[i] in Filter(p, s);
    }
  }
}
