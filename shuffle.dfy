/** The backward Fisher-Yates shuffle of `getPosts` (lines 57-60 of the post controller), with
    the random draws supplied by the caller. */
module Shuffling {

  /** `draw(i)` is `Math.floor(Math.random() * (i + 1))` at the step for index `i`: a whole
      number from 0 to i. */
  ghost predicate ValidDraws(draw: nat -> nat) {
    forall i :: draw(i) <= i
  }

  /** `[s[i], s[j]] = [s[j], s[i]]`. */
  function Swap<T>(s: seq<T>, i: nat, j: nat): (r: seq<T>)
    requires i < |s| && j < |s|
    ensures |r| == |s| && r[i] == s[j] && r[j] == s[i]
  {
    s[i := s[j]][j := s[i]]
  }

  /** The loop from index `i` down to 1: swap position `i` with position `draw(i)`, go on below. */
  function ShuffleFrom<T>(s: seq<T>, draw: nat -> nat, i: int): (r: seq<T>)
    requires ValidDraws(draw) && i < |s|
    ensures |r| == |s|
    decreases i
  {
    if i <= 0 then s else ShuffleFrom(Swap(s, i, draw(i)), draw, i - 1)
  }

  /** Each step is a swap, so the loop's result is a permutation of its input. */
  lemma {:induction false} ShuffleFromPermutes<T>(s: seq<T>, draw: nat -> nat, i: int)
    requires ValidDraws(draw) && i < |s|
    ensures multiset(ShuffleFrom(s, draw, i)) == multiset(s)
    decreases i
  {
    if i > 0 {
      ShuffleFromPermutes(Swap(s, i, draw(i)), draw, i - 1);
    }
  }

  /** The whole shuffle, from the last index down. */
  function Shuffled<T>(s: seq<T>, draw: nat -> nat): seq<T>
    requires ValidDraws(draw)
  {
    ShuffleFrom(s, draw, |s| - 1)
  }

  /** Lines 57-60 of `getPosts`, in place on the array. */
  method Shuffle<T>(a: array<T>, draw: nat -> nat)
    requires ValidDraws(draw)
    modifies a
    ensures a[..] == Shuffled(old(a[..]), draw)
    ensures multiset(a[..]) == multiset(old(a[..]))
  {
    var i := a.Length - 1;
    ghost var goal := Shuffled(a[..], draw);
    ShuffleFromPermutes(a[..], draw, a.Length - 1);
    while i > 0
      invariant -1 <= i < a.Length
      invariant ShuffleFrom(a[..], draw, i) == goal
    {
      var j := draw(i);
      assert j <= i;
      ShuffleStep(a[..], draw, i);
      SwapAt(a, i, j);
      i := i - 1;
    }
    assert ShuffleFrom(a[..], draw, i) == a[..];
  }

  /** The destructuring swap `[a[i], a[j]] = [a[j], a[i]]`. */
  method SwapAt<T>(a: array<T>, i: nat, j: nat)
    requires i < a.Length && j < a.Length
    modifies a
    ensures a[..] == Swap(old(a[..]), i, j)
  {
    a[i], a[j] := a[j], a[i];
  }

  /** One turn of the loop: swap at `i`, then continue from `i - 1`. */
  lemma ShuffleStep<T>(s: seq<T>, draw: nat -> nat, i: int)
    requires ValidDraws(draw) && 0 < i < |s|
    ensures ShuffleFrom(s, draw, i) == ShuffleFrom(Swap(s, i, draw(i)), draw, i - 1)
  {
  }

  /** Two draw sources that agree on the indices the loop uses give the same shuffle. */
  lemma {:induction false} ShuffleFromAgrees<T>(s: seq<T>, d1: nat -> nat, d2: nat -> nat, i: int)
    requires ValidDraws(d1) && ValidDraws(d2) && i < |s|
    requires forall k: nat :: k <= i ==> d1(k) == d2(k)
    ensures ShuffleFrom(s, d1, i) == ShuffleFrom(s, d2, i)
    decreases i
  {
    if i > 0 {
      assert d1(i) == d2(i);
      ShuffleFromAgrees(Swap(s, i, d1(i)), d1, d2, i - 1);
    }
  }

  /** Every permutation of the blend is the outcome of some sequence of draws. */
  lemma EveryPermutationReachable<T>(s: seq<T>, t: seq<T>)
    requires multiset(s) == multiset(t)
    ensures exists draw: nat -> nat :: ValidDraws(draw) && Shuffled(s, draw) == t
  {
    assert |s| == |multiset(s)| == |multiset(t)| == |t|;
    assert s[..|s|] == s && t[..|t|] == t;
    assert AgreeAbove(s, t, |s| - 1);
    var draw := ReachFrom(s, t, |s| - 1);
    assert Shuffled(s, draw) == t;
  }

  /** `s` and `t` hold the same elements at every position above `i`. */
  ghost predicate AgreeAbove<T>(s: seq<T>, t: seq<T>, i: int) {
    |s| == |t| && forall k :: 0 <= k < |s| && i < k ==> s[k] == t[k]
  }

  /** An inductive step of `EveryPermutationReachable`: up to position `i` the two sequences
      hold the same elements, above it they agree; `draw` turns `s` into `t`. */
  lemma {:induction false} ReachFrom<T>(s: seq<T>, t: seq<T>, i: int) returns (draw: nat -> nat)
    requires -1 <= i < |s| && AgreeAbove(s, t, i)
    requires multiset(s[..i + 1]) == multiset(t[..i + 1])
    ensures ValidDraws(draw)
    ensures ShuffleFrom(s, draw, i) == t
    decreases i + 1
  {
    if i <= 0 {
      ReachBase(s, t, i);
      draw := NoSwaps(s, i);
    } else {
      var j := ReachSwap(s, t, i);
      var d' := ReachFrom(Swap(s, i, j), t, i - 1);
      draw := FirstSwap(s, t, i, j, d');
    }
  }

  /** With nothing left to place any draws do, and the result is the input. */
  lemma NoSwaps<T>(s: seq<T>, i: int) returns (draw: nat -> nat)
    requires i <= 0 && i < |s|
    ensures ValidDraws(draw) && ShuffleFrom(s, draw, i) == s
  {
    draw := k => 0;
  }

  /** Drawing `j` at step `i`, then what turns the swapped sequence into `t`, turns `s` into `t`. */
  lemma FirstSwap<T>(s: seq<T>, t: seq<T>, i: int, j: nat, d': nat -> nat) returns (draw: nat -> nat)
    requires 0 < i < |s| && j <= i && ValidDraws(d') && ShuffleFrom(Swap(s, i, j), d', i - 1) == t
    ensures ValidDraws(draw) && ShuffleFrom(s, draw, i) == t
  {
    draw := k => if k == i then j else d'(k);
    assert ValidDraws(draw);
    ShuffleFromAgrees(Swap(s, i, j), draw, d', i - 1);
    ShuffleStep(s, draw, i);
  }

  /** With at most one position left to place, the two sequences are already equal. */
  lemma ReachBase<T>(s: seq<T>, t: seq<T>, i: int)
    requires -1 <= i <= 0 && i < |s| && AgreeAbove(s, t, i)
    requires multiset(s[..i + 1]) == multiset(t[..i + 1])
    ensures s == t
  {
    if i == 0 {
      SingletonPrefix(s, t);
    }
  }

  lemma SingletonPrefix<T>(s: seq<T>, t: seq<T>)
    requires 0 < |s| && 0 < |t| && multiset(s[..1]) == multiset(t[..1])
    ensures s[0] == t[0]
  {
    assert s[..1] == [s[0]] && t[..1] == [t[0]];
    assert t[0] in multiset(s[..1]);
  }

  lemma PrefixMultiset<T>(s: seq<T>, i: nat)
    requires i < |s|
    ensures multiset(s[..i + 1]) == multiset(s[..i]) + multiset{s[i]}
  {
    assert s[..i + 1] == s[..i] + [s[i]];
  }

  lemma Cancel<T>(a: multiset<T>, b: multiset<T>, x: T)
    requires a + multiset{x} == b + multiset{x}
    ensures a == b
  {
    assert forall y :: a[y] == (a + multiset{x})[y] - multiset{x}[y];
  }

  /** Swapping two positions at or below `i` leaves the elements up to `i` as they were, as a
      multiset. */
  lemma SwapBelow<T>(s: seq<T>, i: nat, j: nat)
    requires j <= i < |s|
    ensures multiset(Swap(s, i, j)[..i + 1]) == multiset(s[..i + 1])
  {
    assert Swap(s, i, j)[..i + 1] == Swap(s[..i + 1], i, j);
  }

  /** The element `t` wants at position `i` sits at some `j <= i` of `s`. */
  lemma Locate<T>(s: seq<T>, t: seq<T>, i: nat) returns (j: nat)
    requires |s| == |t| && i < |s|
    requires multiset(s[..i + 1]) == multiset(t[..i + 1])
    ensures j <= i && s[j] == t[i]
  {
    assert t[i] in multiset(t[..i + 1]) by {
      assert t[..i + 1][i] == t[i];
    }
    assert t[i] in s[..i + 1];
    var k :| 0 <= k < i + 1 && s[..i + 1][k] == t[i];
    j := k;
  }

  /** Swapping that element into place leaves one position fewer to place. */
  lemma ReachSwap<T>(s: seq<T>, t: seq<T>, i: int) returns (j: nat)
    requires 0 < i < |s| && AgreeAbove(s, t, i)
    requires multiset(s[..i + 1]) == multiset(t[..i + 1])
    ensures j <= i
    ensures multiset(Swap(s, i, j)[..i]) == multiset(t[..i])
    ensures AgreeAbove(Swap(s, i, j), t, i - 1)
  {
    j := Locate(s, t, i);
    var s' := Swap(s, i, j);
    SwapBelow(s, i, j);
    PrefixMultiset(s', i);
    PrefixMultiset(t, i);
    Cancel(multiset(s'[..i]), multiset(t[..i]), t[i]);
  }
}
