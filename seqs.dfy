/** Order-preserving selection from a sequence: the model of `Array.prototype.filter`. */
module Seqs {

  /** The elements of `s` that satisfy `p`, in their original order. */
  function Keep<T>(s: seq<T>, p: T -> bool): (r: seq<T>)
    ensures |r| <= |s|
    ensures forall x :: x in r ==> x in s && p(x)
  {
    if s == [] then [] else (if p(s[0]) then [s[0]] else []) + Keep(s[1..], p)
  }

  /** `idx` lists strictly increasing positions of `s`. */
  ghost predicate IncreasingPositions(idx: seq<nat>, n: nat) {
    (forall k :: 0 <= k < |idx| ==> idx[k] < n) &&
    (forall k, l :: 0 <= k < l < |idx| ==> idx[k] < idx[l])
  }

  /**
   * Keep selects exactly the positions whose element satisfies `p`, in increasing
   * order: its result is the subsequence of `s` at the returned positions, and a
   * position is among them if and only if its element satisfies `p`.
   */
  lemma {:induction false} KeepPositions<T>(s: seq<T>, p: T -> bool) returns (idx: seq<nat>)
    ensures IncreasingPositions(idx, |s|)
    ensures |idx| == |Keep(s, p)|
    ensures forall k :: 0 <= k < |idx| ==> Keep(s, p)[k] == s[idx[k]]
    ensures forall i :: 0 <= i < |s| ==> (p(s[i]) <==> i in idx)
  {
    if s == [] {
      idx := [];
    } else {
      var rest := KeepPositions(s[1..], p);
      var shifted := Shift(rest);
      var head: seq<nat> := if p(s[0]) then [0] else [];
      idx := head + shifted;
      ShiftIncreasing(rest, |s| - 1);
      ConsIncreasing(head, shifted, |s|);
      KeepCons(s[0], s[1..], p);
      assert [s[0]] + s[1..] == s;
      ConsElements(s, p(s[0]), Keep(s, p), Keep(s[1..], p), rest);
      forall i | 0 <= i < |s|
        ensures p(s[i]) <==> i in idx
      {
        if i > 0 {
          assert s[i] == s[1..][i - 1];
          assert i in idx <==> i in shifted;
        } else {
          assert 0 !in shifted;
        }
      }
    }
  }

  /** Every position moved one place to the right. */
  function Shift(rest: seq<nat>): (shifted: seq<nat>)
    ensures |shifted| == |rest|
    ensures forall k :: 0 <= k < |rest| ==> shifted[k] == rest[k] + 1
    ensures forall i :: i in shifted <==> i >= 1 && i - 1 in rest
  {
    var shifted := seq(|rest|, k requires 0 <= k < |rest| => rest[k] + 1);
    assert forall i :: i >= 1 && i - 1 in rest ==> i in shifted by {
      forall i | i >= 1 && i - 1 in rest
        ensures i in shifted
      {
        var k :| 0 <= k < |rest| && rest[k] == i - 1;
        assert shifted[k] == i;
      }
    }
    shifted
  }

  lemma ShiftIncreasing(rest: seq<nat>, n: nat)
    requires IncreasingPositions(rest, n)
    ensures IncreasingPositions(Shift(rest), n + 1)
  {
  }

  lemma ConsIncreasing(head: seq<nat>, shifted: seq<nat>, n: nat)
    requires head == [] || (head == [0] && n > 0)
    requires IncreasingPositions(shifted, n) && 0 !in shifted
    ensures IncreasingPositions(head + shifted, n)
  {
    if head == [0] {
      assert forall k :: 0 <= k < |shifted| ==> 0 < shifted[k] by {
        forall k | 0 <= k < |shifted| ensures 0 < shifted[k] {
          assert shifted[k] in shifted;
        }
      }
    }
  }

  lemma ConsElements<T>(s: seq<T>, b: bool, kept: seq<T>, keptRest: seq<T>, rest: seq<nat>)
    requires s != [] && kept == (if b then [s[0]] else []) + keptRest
    requires |rest| == |keptRest|
    requires forall k :: 0 <= k < |rest| ==> rest[k] < |s| - 1 && keptRest[k] == s[1..][rest[k]]
    ensures |(if b then [0] else []) + Shift(rest)| == |kept|
    ensures forall k :: 0 <= k < |kept| ==> kept[k] == s[((if b then [0] else []) + Shift(rest))[k]]
  {
    var head: seq<nat> := if b then [0] else [];
    var idx := head + Shift(rest);
    forall k | 0 <= k < |kept|
      ensures kept[k] == s[idx[k]]
    {
      if k >= |head| {
        assert idx[k] == rest[k - |head|] + 1;
        assert kept[k] == keptRest[k - |head|];
      }
    }
  }

  /** Keeping with a predicate that every element satisfies changes nothing. */
  lemma {:induction false} KeepAll<T>(s: seq<T>, p: T -> bool)
    requires forall i :: 0 <= i < |s| ==> p(s[i])
    ensures Keep(s, p) == s
  {
    if s != [] {
      KeepAll(s[1..], p);
    }
  }

  /** Keeping from a sequence with a known first element. */
  lemma KeepCons<T>(x: T, s: seq<T>, p: T -> bool)
    ensures Keep([x] + s, p) == (if p(x) then [x] else []) + Keep(s, p)
  {
    assert ([x] + s)[1..] == s;
  }
}
