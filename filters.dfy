/** The numpy bulk operations the projection code is written in: boolean indexing `xs[mask]`,
    element-wise `&` and `~`, and `np.where(mask)[0]`. Masks are sequences of booleans aligned
    with the array they index. */
module Filters {

  /** Number of true entries: the length of `xs[mask]`. */
  function Count(mask: seq<bool>): nat {
    if |mask| == 0 then 0 else (if mask[0] then 1 else 0) + Count(mask[1..])
  }

  /** Boolean indexing `xs[mask]`: the entries whose mask bit is set, in their original order. */
  function Select<T>(xs: seq<T>, mask: seq<bool>): (r: seq<T>)
    requires |xs| == |mask|
    ensures |r| == Count(mask)
  {
    if |xs| == 0 then [] else (if mask[0] then [xs[0]] else []) + Select(xs[1..], mask[1..])
  }

  /** `~mask` */
  function Not(mask: seq<bool>): (r: seq<bool>)
    ensures |r| == |mask| && forall i :: 0 <= i < |mask| ==> r[i] == !mask[i]
  {
    seq(|mask|, i requires 0 <= i < |mask| => !mask[i])
  }

  /** `a & b` */
  function And(a: seq<bool>, b: seq<bool>): (r: seq<bool>)
    requires |a| == |b|
    ensures |r| == |a| && forall i :: 0 <= i < |a| ==> r[i] == (a[i] && b[i])
  {
    seq(|a|, i requires 0 <= i < |a| => a[i] && b[i])
  }

  /** `np.arange(n)` */
  function Range(n: nat): (r: seq<nat>)
    ensures |r| == n && forall i :: 0 <= i < n ==> r[i] == i
  {
    seq(n, i requires 0 <= i < n => i)
  }

  /** `np.where(mask)[0]`: the positions of the true entries, in increasing order. */
  function Where(mask: seq<bool>): (r: seq<nat>)
    ensures |r| == Count(mask)
    ensures forall k :: 0 <= k < |r| ==> r[k] < |mask|
  {
    SelectBounded(Range(|mask|), mask, |mask|);
    Select<nat>(Range(|mask|), mask)
  }

  /** The mask obtained by keeping only those true entries of `outer` whose turn in `inner`
      is true: the k-th true entry of `outer` survives iff `inner[k]`. Selecting with `outer`
      and then with `inner` is selecting once with this mask. */
  function Refine(outer: seq<bool>, inner: seq<bool>): (r: seq<bool>)
    requires |inner| == Count(outer)
    ensures |r| == |outer|
  {
    if |outer| == 0 then []
    else if outer[0] then [inner[0]] + Refine(outer[1..], inner[1..])
    else [false] + Refine(outer[1..], inner)
  }

  /** Every entry of a selection is an entry whose bit was set: stated as an index into the
      source sequence. */
  lemma {:induction false} SelectFrom<T>(xs: seq<T>, mask: seq<bool>, k: nat)
    requires |xs| == |mask| && k < Count(mask)
    ensures exists i :: 0 <= i < |xs| && mask[i] && Select(xs, mask)[k] == xs[i]
    decreases |xs|
  {
    if mask[0] && k == 0 {
      assert Select(xs, mask)[0] == xs[0];
    } else {
      var k' := if mask[0] then k - 1 else k;
      SelectFrom(xs[1..], mask[1..], k');
      var i' :| 0 <= i' < |xs| - 1 && mask[1..][i'] && Select(xs[1..], mask[1..])[k'] == xs[1..][i'];
      assert Select(xs, mask)[k] == xs[i' + 1];
    }
  }

  /** Every set bit contributes its entry, at the position given by the number of set bits
      before it: selection keeps all survivors and keeps them in order. */
  lemma {:induction false} SelectAt<T>(xs: seq<T>, mask: seq<bool>, i: nat)
    requires |xs| == |mask| && i < |xs| && mask[i]
    ensures Count(mask[..i]) < Count(mask)
    ensures Select(xs, mask)[Count(mask[..i])] == xs[i]
    decreases i
  {
    if i == 0 {
      assert mask[..0] == [];
    } else {
      SelectAt(xs[1..], mask[1..], i - 1);
      assert mask[1..][..i - 1] == mask[..i][1..];
    }
  }

  /** Selecting twice is selecting once with the refined mask. */
  lemma {:induction false} SelectSelect<T>(xs: seq<T>, outer: seq<bool>, inner: seq<bool>)
    requires |xs| == |outer| && |inner| == Count(outer)
    ensures Select(Select(xs, outer), inner) == Select(xs, Refine(outer, inner))
    decreases |xs|
  {
    if |xs| > 0 {
      var once := Select(xs, outer);
      if outer[0] {
        assert once == [xs[0]] + Select(xs[1..], outer[1..]);
        assert once[1..] == Select(xs[1..], outer[1..]);
        SelectSelect(xs[1..], outer[1..], inner[1..]);
      } else {
        assert once == Select(xs[1..], outer[1..]);
        SelectSelect(xs[1..], outer[1..], inner);
      }
    }
  }

  /** Element-wise application of f, as a vectorised numpy expression computes it. */
  function MapSeq<T, U>(f: T -> U, xs: seq<T>): (r: seq<U>)
    ensures |r| == |xs| && forall i :: 0 <= i < |xs| ==> r[i] == f(xs[i])
  {
    seq(|xs|, i requires 0 <= i < |xs| => f(xs[i]))
  }

  /** Selection commutes with an element-wise map: `f(xs)[mask] == f(xs[mask])`. */
  lemma {:induction false} SelectMap<T, U>(f: T -> U, xs: seq<T>, mask: seq<bool>)
    requires |xs| == |mask|
    ensures Select(MapSeq(f, xs), mask) == MapSeq(f, Select(xs, mask))
    decreases |xs|
  {
    if |xs| > 0 {
      assert MapSeq(f, xs)[1..] == MapSeq(f, xs[1..]);
      SelectMap(f, xs[1..], mask[1..]);
      if mask[0] {
        assert MapSeq(f, Select(xs, mask)) == [f(xs[0])] + MapSeq(f, Select(xs[1..], mask[1..]));
      } else {
        assert MapSeq(f, Select(xs, mask)) == MapSeq(f, Select(xs[1..], mask[1..]));
      }
    }
  }

  /** Refining `outer` by a condition read off the survivors is the same as requiring the
      condition alongside `outer`: `(outer & c)` with c evaluated on all entries. */
  lemma {:induction false} RefineSelected(outer: seq<bool>, c: seq<bool>)
    requires |outer| == |c|
    ensures Refine(outer, Select(c, outer)) == And(outer, c)
    decreases |outer|
  {
    if |outer| > 0 {
      RefineSelected(outer[1..], c[1..]);
      var sel := Select(c, outer);
      var tail := Refine(outer[1..], Select(c[1..], outer[1..]));
      if outer[0] {
        assert sel == [c[0]] + Select(c[1..], outer[1..]);
        assert sel[1..] == Select(c[1..], outer[1..]);
        assert Refine(outer, sel) == [c[0]] + tail;
      } else {
        assert sel == Select(c[1..], outer[1..]);
        assert Refine(outer, sel) == [false] + tail;
      }
      assert And(outer, c) == [outer[0] && c[0]] + And(outer[1..], c[1..]);
    }
  }

  /** Where a bit of `outer` is set, refining by `inner` and by `~inner` disagree; where it is
      clear, both are false. */
  lemma {:induction false} RefineComplement(outer: seq<bool>, inner: seq<bool>, i: nat)
    requires |inner| == Count(outer) && i < |outer|
    ensures Refine(outer, inner)[i] == (outer[i] && !Refine(outer, Not(inner))[i])
    decreases |outer|
  {
    if i > 0 {
      if outer[0] {
        assert Not(inner)[1..] == Not(inner[1..]);
        RefineComplement(outer[1..], inner[1..], i - 1);
      } else {
        RefineComplement(outer[1..], inner, i - 1);
      }
    }
  }

  /** A position appears in `np.arange(n)[mask]` exactly when it is in range and its bit is set. */
  lemma {:induction false} InSelectedRange(mask: seq<bool>, i: int)
    ensures i in Select(Range(|mask|), mask) <==> 0 <= i < |mask| && mask[i]
  {
    var sel := Select(Range(|mask|), mask);
    if i in sel {
      var k :| 0 <= k < |sel| && sel[k] == i;
      SelectFrom(Range(|mask|), mask, k);
    }
    if 0 <= i < |mask| && mask[i] {
      SelectAt(Range(|mask|), mask, i);
    }
  }

  /** A bound on every entry is a bound on every selected entry. */
  lemma {:induction false} SelectBounded(xs: seq<nat>, mask: seq<bool>, n: nat)
    requires |xs| == |mask|
    requires forall i :: 0 <= i < |xs| ==> xs[i] < n
    ensures forall k :: 0 <= k < Count(mask) ==> Select<nat>(xs, mask)[k] < n
    decreases |xs|
  {
    if |xs| > 0 {
      SelectBounded(xs[1..], mask[1..], n);
    }
  }
  /** Filtering by `a` and then by `c` read off the survivors is filtering once by `a & c`. */
  lemma SelectAnd<T>(xs: seq<T>, a: seq<bool>, c: seq<bool>)
    requires |xs| == |a| == |c|
    ensures Select(Select(xs, a), Select(c, a)) == Select(xs, And(a, c))
  {
    SelectSelect(xs, a, Select(c, a));
    RefineSelected(a, c);
  }

  /** Adding a condition never lets more entries through. */
  lemma {:induction false} CountAnd(a: seq<bool>, c: seq<bool>)
    requires |a| == |c|
    ensures Count(And(a, c)) <= Count(a)
    decreases |a|
  {
    if |a| > 0 {
      assert And(a, c)[1..] == And(a[1..], c[1..]);
      CountAnd(a[1..], c[1..]);
    }
  }
}
