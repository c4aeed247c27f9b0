/** `Array.prototype.filter` over sequences: a stable filter, and the facts
  * about it that the catalog, the filter engine and the session rely on. */
module Sequences {

  /** The elements of `s` that satisfy `p`, in their original order. */
  function Keep<T(!new)>(s: seq<T>, p: T -> bool): (r: seq<T>)
    ensures |r| <= |s|
    ensures forall k :: 0 <= k < |r| ==> p(r[k])
  {
    if s == [] then [] else (if p(s[0]) then [s[0]] else []) + Keep(s[1..], p)
  }

  /** An element survives exactly when it is in `s` and passes `p`. */
  lemma {:induction false} KeepMembership<T(!new)>(s: seq<T>, p: T -> bool, x: T)
    ensures x in Keep(s, p) <==> x in s && p(x)
  {
    if s != [] {
      assert s == [s[0]] + s[1..];
      KeepMembership(s[1..], p, x);
    }
  }

  /** `idx` lists, in increasing order, positions of `b` that spell out `a`. */
  ghost predicate EmbedsAt<T(!new)>(a: seq<T>, b: seq<T>, idx: seq<nat>) {
    && |idx| == |a|
    && (forall k :: 0 <= k < |idx| ==> idx[k] < |b| && b[idx[k]] == a[k])
    && (forall k, l :: 0 <= k < l < |idx| ==> idx[k] < idx[l])
  }

  /** `a` is an order-preserving subsequence of `b`. */
  ghost predicate IsSubsequence<T(!new)>(a: seq<T>, b: seq<T>) {
    exists idx :: EmbedsAt(a, b, idx)
  }

  function Shift(idx: seq<nat>): (r: seq<nat>)
    ensures |r| == |idx|
    ensures forall k :: 0 <= k < |r| ==> r[k] == idx[k] + 1
  {
    seq(|idx|, k requires 0 <= k < |idx| => idx[k] + 1)
  }

  /** The positions of `s` that `Keep(s, p)` retains: increasing, exactly the
    * positions whose element satisfies `p`, and in step with `Keep(s, p)`. */
  function KeptPositions<T(!new)>(s: seq<T>, p: T -> bool): (idx: seq<nat>)
    ensures EmbedsAt(Keep(s, p), s, idx)
    ensures forall i :: 0 <= i < |s| && p(s[i]) ==> i in idx
    ensures forall k :: 0 <= k < |idx| ==> p(s[idx[k]])
  {
    if s == [] then []
    else
      var rest := KeptPositions(s[1..], p);
      ShiftEmbeds(s, Keep(s[1..], p), rest);
      ShiftFacts(s, p, rest);
      if p(s[0]) then
        KeptPositionsCons(s, p, Shift(rest));
        [0] + Shift(rest)
      else
        assert Keep(s, p) == Keep(s[1..], p);
        Shift(rest)
  }

  lemma KeptPositionsCons<T(!new)>(s: seq<T>, p: T -> bool, shifted: seq<nat>)
    requires s != [] && p(s[0])
    requires EmbedsAt(Keep(s[1..], p), s, shifted)
    requires forall k :: 0 <= k < |shifted| ==> shifted[k] > 0 && p(s[shifted[k]])
    requires forall i :: 1 <= i < |s| && p(s[i]) ==> i in shifted
    ensures EmbedsAt(Keep(s, p), s, [0] + shifted)
    ensures forall i :: 0 <= i < |s| && p(s[i]) ==> i in [0] + shifted
    ensures forall k :: 0 <= k < |shifted| + 1 ==> p(s[([0] + shifted)[k]])
  {
    assert Keep(s, p) == [s[0]] + Keep(s[1..], p);
    ConsEmbeds(s, Keep(s[1..], p), shifted);
    ConsPositions(s, p, shifted);
  }

  lemma ConsPositions<T(!new)>(s: seq<T>, p: T -> bool, shifted: seq<nat>)
    requires s != [] && p(s[0])
    requires forall k :: 0 <= k < |shifted| ==> shifted[k] < |s| && p(s[shifted[k]])
    requires forall i :: 1 <= i < |s| && p(s[i]) ==> i in shifted
    ensures forall i :: 0 <= i < |s| && p(s[i]) ==> i in [0] + shifted
    ensures forall k :: 0 <= k < |shifted| + 1 ==> p(s[([0] + shifted)[k]])
  {
    var idx := [0] + shifted;
    forall i | 0 <= i < |s| && p(s[i]) ensures i in idx {
      if i > 0 { assert i in shifted; }
    }
    forall k | 0 <= k < |idx| ensures p(s[idx[k]]) {
      if k > 0 { assert idx[k] == shifted[k - 1]; }
    }
  }

  lemma ShiftEmbeds<T(!new)>(s: seq<T>, tail: seq<T>, rest: seq<nat>)
    requires s != [] && EmbedsAt(tail, s[1..], rest)
    ensures EmbedsAt(tail, s, Shift(rest))
    ensures forall k :: 0 <= k < |rest| ==> Shift(rest)[k] > 0
  {
    var shifted := Shift(rest);
    forall k | 0 <= k < |shifted| ensures shifted[k] < |s| && s[shifted[k]] == tail[k] {
      assert s[1..][rest[k]] == s[rest[k] + 1];
    }
  }

  lemma ShiftFacts<T(!new)>(s: seq<T>, p: T -> bool, rest: seq<nat>)
    requires s != []
    requires forall k :: 0 <= k < |rest| ==> rest[k] < |s| - 1
    requires forall i :: 0 <= i < |s| - 1 && p(s[1..][i]) ==> i in rest
    requires forall k :: 0 <= k < |rest| ==> p(s[1..][rest[k]])
    ensures forall i :: 1 <= i < |s| && p(s[i]) ==> i in Shift(rest)
    ensures forall k :: 0 <= k < |rest| ==> p(s[Shift(rest)[k]])
  {
    var shifted := Shift(rest);
    forall k | 0 <= k < |rest| ensures p(s[shifted[k]]) {
      assert s[1..][rest[k]] == s[rest[k] + 1];
    }
    forall i | 1 <= i < |s| && p(s[i]) ensures i in shifted {
      assert s[1..][i - 1] == s[i];
      var k :| 0 <= k < |rest| && rest[k] == i - 1;
      assert shifted[k] == i;
    }
  }

  lemma ConsEmbeds<T(!new)>(s: seq<T>, tail: seq<T>, idx: seq<nat>)
    requires s != [] && EmbedsAt(tail, s, idx)
    requires forall k :: 0 <= k < |idx| ==> idx[k] > 0
    ensures EmbedsAt([s[0]] + tail, s, [0] + idx)
  {
    var all := [0] + idx;
    forall k | 0 <= k < |all| ensures all[k] < |s| && s[all[k]] == ([s[0]] + tail)[k] {
      if k > 0 { assert all[k] == idx[k - 1]; }
    }
    forall k, l | 0 <= k < l < |all| ensures all[k] < all[l] {
      if k > 0 { assert all[k] == idx[k - 1]; }
      assert all[l] == idx[l - 1];
    }
  }

  lemma KeepIsSubsequence<T(!new)>(s: seq<T>, p: T -> bool)
    ensures IsSubsequence(Keep(s, p), s)
  {
    var idx := KeptPositions(s, p);
  }

  /** Keeping by a test that every element passes changes nothing. */
  lemma {:induction false} KeepAll<T(!new)>(s: seq<T>, p: T -> bool)
    requires forall x :: x in s ==> p(x)
    ensures Keep(s, p) == s
  {
    if s != [] {
      KeepAll(s[1..], p);
    }
  }

  /** Keeping by a test that no element passes leaves nothing. */
  lemma {:induction false} KeepNone<T(!new)>(s: seq<T>, p: T -> bool)
    requires forall x :: x in s ==> !p(x)
    ensures Keep(s, p) == []
  {
    if s != [] {
      KeepNone(s[1..], p);
    }
  }

  /** Filtering distributes over concatenation. */
  lemma {:induction false} KeepConcat<T(!new)>(a: seq<T>, b: seq<T>, p: T -> bool)
    ensures Keep(a + b, p) == Keep(a, p) + Keep(b, p)
  {
    if a == [] {
      assert a + b == b;
    } else {
      assert (a + b)[0] == a[0];
      assert (a + b)[1..] == a[1..] + b;
      KeepConcat(a[1..], b, p);
    }
  }

  /** Filtering twice is filtering once by the conjunction of the tests. */
  lemma {:induction false} KeepKeep<T(!new)>(s: seq<T>, p: T -> bool, q: T -> bool, pq: T -> bool)
    requires forall x :: pq(x) == (p(x) && q(x))
    ensures Keep(Keep(s, p), q) == Keep(s, pq)
  {
    if s != [] {
      KeepKeep(s[1..], p, q, pq);
      if p(s[0]) {
        assert Keep(s, p) == [s[0]] + Keep(s[1..], p);
        KeepConcat([s[0]], Keep(s[1..], p), q);
        assert [s[0]][1..] == [];
        assert Keep([s[0]], q) == if q(s[0]) then [s[0]] else [];
      } else {
        assert Keep(s, p) == Keep(s[1..], p);
      }
    }
  }

  /** Filtering by two tests that agree on every element gives the same result. */
  lemma {:induction false} KeepCongruent<T(!new)>(s: seq<T>, p: T -> bool, q: T -> bool)
    requires forall x :: x in s ==> p(x) == q(x)
    ensures Keep(s, p) == Keep(s, q)
  {
    if s != [] {
      KeepCongruent(s[1..], p, q);
    }
  }

  /** Filtering by a test and by its negation splits the sequence in two. */
  lemma {:induction false} KeepComplement<T(!new)>(s: seq<T>, p: T -> bool, np: T -> bool)
    requires forall x :: x in s ==> np(x) == !p(x)
    ensures |Keep(s, p)| + |Keep(s, np)| == |s|
  {
    if s != [] {
      assert forall x :: x in s[1..] ==> x in s;
      KeepComplement(s[1..], p, np);
    }
  }

  /** The blocks of `bs` laid end to end, first block first. */
  function Flatten<T>(bs: seq<seq<T>>): seq<T> {
    if bs == [] then [] else Flatten(bs[..|bs| - 1]) + bs[|bs| - 1]
  }

  /** Every block of `bs` has length `n`. */
  ghost predicate Uniform<T>(bs: seq<seq<T>>, n: nat) {
    forall k :: 0 <= k < |bs| ==> |bs[k]| == n
  }

  lemma FlattenSnoc<T>(bs: seq<seq<T>>, b: seq<T>)
    ensures Flatten(bs + [b]) == Flatten(bs) + b
  {
    assert (bs + [b])[..|bs|] == bs;
  }

  lemma {:induction false} FlattenLength<T>(bs: seq<seq<T>>, n: nat)
    requires Uniform(bs, n)
    ensures |Flatten(bs)| == |bs| * n
  {
    if bs != [] {
      FlattenLength(bs[..|bs| - 1], n);
      assert |bs| * n == (|bs| - 1) * n + n;
    }
  }

  lemma MulLe(a: nat, b: nat, n: nat)
    requires a <= b
    ensures a * n <= b * n
  {
  }

  /** Element `j` of block `ci` sits at `ci * n + j` when every block has length `n`. */
  lemma {:induction false} FlattenAt<T>(bs: seq<seq<T>>, n: nat, ci: nat, j: nat)
    requires Uniform(bs, n) && ci < |bs| && j < n
    ensures ci * n + j < |Flatten(bs)|
    ensures Flatten(bs)[ci * n + j] == bs[ci][j]
  {
    var init := bs[..|bs| - 1];
    var front := Flatten(init);
    FlattenLength(init, n);
    FlattenLength(bs, n);
    if ci < |init| {
      FlattenAt(init, n, ci, j);
      assert front[ci * n + j] == init[ci][j];
    } else {
      assert ci * n == |front|;
    }
    assert ci * n + j < |bs| * n by {
      MulLe(ci + 1, |bs|, n);
      assert (ci + 1) * n == ci * n + n;
    }
  }

  /** An element of a flattening comes from one of the blocks. */
  lemma {:induction false} FlattenMember<T>(bs: seq<seq<T>>, x: T) returns (k: nat)
    requires x in Flatten(bs)
    ensures k < |bs| && x in bs[k]
  {
    var init := bs[..|bs| - 1];
    if x in Flatten(init) {
      k := FlattenMember(init, x);
      assert init[k] == bs[k];
    } else {
      k := |bs| - 1;
    }
  }

  /** Every position of a flattening of blocks of length `n` is element `j`
    * of block `ci` for the `ci` and `j` with `k == ci * n + j`. */
  lemma {:induction false} FlattenLocate<T>(bs: seq<seq<T>>, n: nat, k: nat) returns (ci: nat, j: nat)
    requires Uniform(bs, n) && k < |Flatten(bs)|
    ensures ci < |bs| && j < n && k == ci * n + j
    ensures Flatten(bs)[k] == bs[ci][j]
  {
    var init := bs[..|bs| - 1];
    var front := Flatten(init);
    FlattenLength(init, n);
    if k < |front| {
      ci, j := FlattenLocate(init, n, k);
      assert init[ci] == bs[ci];
    } else {
      ci, j := |bs| - 1, k - |front|;
    }
  }

  /** Filtering a flattening by a test that holds on every element of block
    * `ci` and on no element of any other block gives block `ci`. */
  lemma {:induction false} KeepOneBlock<T(!new)>(bs: seq<seq<T>>, p: T -> bool, ci: nat)
    requires ci < |bs|
    requires forall x :: x in bs[ci] ==> p(x)
    requires forall k, x :: 0 <= k < |bs| && k != ci && x in bs[k] ==> !p(x)
    ensures Keep(Flatten(bs), p) == bs[ci]
  {
    var init, last := bs[..|bs| - 1], bs[|bs| - 1];
    KeepConcat(Flatten(init), last, p);
    if ci == |bs| - 1 {
      forall x | x in Flatten(init) ensures !p(x) {
        var k := FlattenMember(init, x);
        assert init[k] == bs[k];
      }
      KeepNone(Flatten(init), p);
      KeepAll(last, p);
    } else {
      KeepOneBlock(init, p, ci);
      KeepNone(last, p);
    }
  }

  /** Appending one element adds one to the count of kept elements when it
    * passes the test, and nothing otherwise. */
  lemma KeepSnocLength<T(!new)>(s: seq<T>, x: T, p: T -> bool)
    ensures |Keep(s + [x], p)| == |Keep(s, p)| + if p(x) then 1 else 0
  {
    KeepConcat(s, [x], p);
    assert [x][1..] == [];
  }
}
