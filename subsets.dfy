/** The k-element subsets that the hand evaluator enumerates
    (getCombinations in poker-game.js): every subsequence of k elements, in
    input order, each once. */
module Subsets {
  import opened Cards

  /** getCombinations(arr, size). The source recurses without end for a size
      below one; its only caller asks for five. */
  function Combinations<T>(arr: seq<T>, size: nat): seq<seq<T>>
    requires size >= 1
    decreases |arr|, 1, 0
  {
    if size > |arr| then []
    else if size == 1 then Singletons(arr)
    else CombosFrom(arr, size, 0)
  }

  /** arr.map(item => [item]) */
  function Singletons<T>(arr: seq<T>): (r: seq<seq<T>>)
    ensures |r| == |arr| && forall i :: 0 <= i < |arr| ==> r[i] == [arr[i]]
  {
    seq(|arr|, i requires 0 <= i < |arr| => [arr[i]])
  }

  /** [x, ...tail] for every tail */
  function Prepend<T>(x: T, tails: seq<seq<T>>): (r: seq<seq<T>>)
    ensures |r| == |tails| && forall i :: 0 <= i < |tails| ==> r[i] == [x] + tails[i]
  {
    seq(|tails|, i requires 0 <= i < |tails| => [x] + tails[i])
  }

  /** The loop of getCombinations from head index i on: for every head
      arr[j] with i <= j <= |arr| - size, that head before each combination
      of size - 1 drawn from the elements after it. */
  function CombosFrom<T>(arr: seq<T>, size: nat, i: nat): seq<seq<T>>
    requires 2 <= size <= |arr|
    decreases |arr|, 0, |arr| - i
  {
    if i > |arr| - size then []
    else Prepend(arr[i], Combinations(arr[i + 1..], size - 1)) + CombosFrom(arr, size, i + 1)
  }

  /** c is a subsequence of a: its elements occur in a in the same order. */
  predicate IsSubseq<T(==)>(c: seq<T>, a: seq<T>)
    decreases |a|
  {
    if c == [] then true
    else if a == [] then false
    else (c[0] == a[0] && IsSubseq(c[1..], a[1..])) || IsSubseq(c, a[1..])
  }

  /** The binomial coefficient, by Pascal's rule. */
  function Choose(n: nat, k: nat): nat
  {
    if k == 0 then 1
    else if n == 0 then 0
    else Choose(n - 1, k - 1) + Choose(n - 1, k)
  }

  // ---------------------------------------------------------------------
  // Counting

  lemma {:induction false} ChooseAbove(n: nat, k: nat)
    requires n < k
    ensures Choose(n, k) == 0
  {
    if n > 0 {
      ChooseAbove(n - 1, k - 1);
      ChooseAbove(n - 1, k);
    }
  }

  lemma {:induction false} ChooseOne(n: nat)
    ensures Choose(n, 1) == n
  {
    if n > 0 {
      ChooseOne(n - 1);
    }
  }

  /** There are C(n, size) combinations of an n-element sequence. */
  lemma {:induction false} CombinationsCount<T>(arr: seq<T>, size: nat)
    requires size >= 1
    ensures |Combinations(arr, size)| == Choose(|arr|, size)
    decreases |arr|, 1, 0
  {
    if size > |arr| {
      ChooseAbove(|arr|, size);
    } else if size == 1 {
      ChooseOne(|arr|);
    } else {
      CombosFromCount(arr, size, 0);
    }
  }

  lemma {:induction false} CombosFromCount<T>(arr: seq<T>, size: nat, i: nat)
    requires 2 <= size <= |arr| && i <= |arr|
    ensures |CombosFrom(arr, size, i)| == Choose(|arr| - i, size)
    decreases |arr|, 0, |arr| - i
  {
    if i > |arr| - size {
      ChooseAbove(|arr| - i, size);
    } else {
      var rest := arr[i + 1..];
      CombinationsCount(rest, size - 1);
      CombosFromCount(arr, size, i + 1);
      assert |rest| == |arr| - i - 1;
      assert |CombosFrom(arr, size, i)|
          == |Combinations(rest, size - 1)| + |CombosFrom(arr, size, i + 1)|;
    }
  }

  lemma {:induction false} ChooseSelf(n: nat)
    ensures Choose(n, n) == 1
  {
    if n > 0 {
      ChooseSelf(n - 1);
      ChooseAbove(n - 1, n);
    }
  }

  /** Seven cards give 21 five-card hands. */
  lemma SevenChooseFive<T>(cards: seq<T>)
    requires |cards| == 7
    ensures |Combinations(cards, 5)| == 21
  {
    CombinationsCount(cards, |cards| - 2);
    ChooseSevenFive(|cards|);
  }

  /** C(7, 5) = 21 by Pascal's rule, written for n = 7 so that the solver
      takes one step at a time. */
  lemma ChooseSevenFive(n: nat)
    requires n == 7
    ensures Choose(n, n - 2) == 21
  {
    ChooseOne(n - 4);
    ChooseOne(n - 5);
    ChooseSelf(n - 5);
    ChooseSelf(n - 4);
    ChooseSelf(n - 3);
    ChooseSelf(n - 2);
    assert Choose(n - 3, n - 4) == Choose(n - 4, n - 5) + Choose(n - 4, n - 4);
    assert Choose(n - 4, n - 5) == Choose(n - 5, n - 6) + Choose(n - 5, n - 5);
    assert Choose(n - 2, n - 3) == Choose(n - 3, n - 4) + Choose(n - 3, n - 3);
    assert Choose(n - 1, n - 2) == Choose(n - 2, n - 3) + Choose(n - 2, n - 2);
    assert Choose(n - 3, n - 5) == Choose(n - 4, n - 6) + Choose(n - 4, n - 5);
    assert Choose(n - 2, n - 4) == Choose(n - 3, n - 5) + Choose(n - 3, n - 4);
    assert Choose(n - 1, n - 3) == Choose(n - 2, n - 4) + Choose(n - 2, n - 3);
    assert Choose(n, n - 2) == Choose(n - 1, n - 3) + Choose(n - 1, n - 2);
  }

  // ---------------------------------------------------------------------
  // Soundness: every result is a size-element subsequence

  lemma {:induction false} SubseqOfTail<T>(c: seq<T>, a: seq<T>, j: nat)
    requires j <= |a| && IsSubseq(c, a[j..])
    ensures IsSubseq(c, a)
    decreases j
  {
    if j > 0 {
      assert a[j - 1..][1..] == a[j..];
      assert IsSubseq(c, a[j - 1..]);
      SubseqOfTail(c, a, j - 1);
    }
  }

  lemma {:induction false} SubseqRefl<T>(a: seq<T>)
    ensures IsSubseq(a, a)
    decreases |a|
  {
    if a != [] {
      SubseqRefl(a[1..]);
    }
  }

  lemma {:induction false} ElementIsSubseq<T>(a: seq<T>, j: nat)
    requires j < |a|
    ensures IsSubseq([a[j]], a)
  {
    assert [a[j]][1..] == [];
    assert IsSubseq([a[j]], a[j..]);
    SubseqOfTail([a[j]], a, j);
  }

  /** Every combination has size elements and is a subsequence of arr. */
  lemma {:induction false} CombinationsSound<T>(arr: seq<T>, size: nat)
    requires size >= 1
    ensures forall c :: c in Combinations(arr, size) ==> |c| == size && IsSubseq(c, arr)
    decreases |arr|, 1, 0
  {
    if size > |arr| {
    } else if size == 1 {
      forall c | c in Combinations(arr, size) ensures |c| == size && IsSubseq(c, arr) {
        var j :| 0 <= j < |arr| && c == [arr[j]];
        ElementIsSubseq(arr, j);
      }
    } else {
      CombosFromSound(arr, size, 0);
    }
  }

  lemma {:induction false} CombosFromSound<T>(arr: seq<T>, size: nat, i: nat)
    requires 2 <= size <= |arr| && i <= |arr|
    ensures forall c :: c in CombosFrom(arr, size, i) ==> |c| == size && IsSubseq(c, arr[i..])
    decreases |arr|, 0, |arr| - i
  {
    if i <= |arr| - size {
      var tails := Combinations(arr[i + 1..], size - 1);
      CombinationsSound(arr[i + 1..], size - 1);
      CombosFromSound(arr, size, i + 1);
      assert arr[i..][1..] == arr[i + 1..];
      forall c | c in CombosFrom(arr, size, i) ensures |c| == size && IsSubseq(c, arr[i..]) {
        if c in Prepend(arr[i], tails) {
          var k :| 0 <= k < |tails| && c == [arr[i]] + tails[k];
          assert c[1..] == tails[k];
        } else {
          assert c in CombosFrom(arr, size, i + 1);
        }
      }
    }
  }

  // ---------------------------------------------------------------------
  // Completeness: every size-element subsequence is produced

  lemma {:induction false} SubseqLength<T>(c: seq<T>, a: seq<T>)
    requires IsSubseq(c, a)
    ensures |c| <= |a|
    decreases |a|
  {
    if c != [] && a != [] {
      if c[0] == a[0] && IsSubseq(c[1..], a[1..]) {
        SubseqLength(c[1..], a[1..]);
      } else {
        SubseqLength(c, a[1..]);
      }
    }
  }

  /** A non-empty subsequence starts at some position j of a, and the rest of
      it is a subsequence of what follows j. */
  lemma {:induction false} SubseqHead<T>(c: seq<T>, a: seq<T>) returns (j: nat)
    requires c != [] && IsSubseq(c, a)
    ensures j < |a| && a[j] == c[0] && IsSubseq(c[1..], a[j + 1..])
    decreases |a|
  {
    if c[0] == a[0] && IsSubseq(c[1..], a[1..]) {
      j := 0;
    } else {
      var j' := SubseqHead(c, a[1..]);
      j := j' + 1;
      assert a[1..][j' + 1..] == a[j + 1..];
    }
  }

  lemma {:induction false} CombosFromHas<T>(arr: seq<T>, size: nat, i: nat, j: nat, t: seq<T>)
    requires 2 <= size <= |arr| && i <= j <= |arr| - size
    requires t in Combinations(arr[j + 1..], size - 1)
    ensures [arr[j]] + t in CombosFrom(arr, size, i)
    decreases j - i
  {
    if i < j {
      CombosFromHas(arr, size, i + 1, j, t);
    } else {
      var tails := Combinations(arr[j + 1..], size - 1);
      var k :| 0 <= k < |tails| && tails[k] == t;
      assert Prepend(arr[j], tails)[k] == [arr[j]] + t;
    }
  }

  /** Every size-element subsequence of arr is among its combinations. */
  lemma {:induction false} CombinationsComplete<T>(arr: seq<T>, size: nat, c: seq<T>)
    requires size >= 1 && |c| == size && IsSubseq(c, arr)
    ensures c in Combinations(arr, size)
    decreases |arr|
  {
    SubseqLength(c, arr);
    var j := SubseqHead(c, arr);
    if size == 1 {
      assert c == [arr[j]];
      assert Singletons(arr)[j] == c;
    } else {
      SubseqLength(c[1..], arr[j + 1..]);
      CombinationsComplete(arr[j + 1..], size - 1, c[1..]);
      assert [arr[j]] + c[1..] == c;
      CombosFromHas(arr, size, 0, j, c[1..]);
    }
  }

  // ---------------------------------------------------------------------
  // No combination twice

  lemma {:induction false} SubseqMembers<T>(c: seq<T>, a: seq<T>)
    requires IsSubseq(c, a)
    ensures forall x :: x in c ==> x in a
    decreases |a|
  {
    if c != [] && a != [] {
      if c[0] == a[0] && IsSubseq(c[1..], a[1..]) {
        SubseqMembers(c[1..], a[1..]);
        assert c == [c[0]] + c[1..];
      } else {
        SubseqMembers(c, a[1..]);
      }
    }
  }

  /** The number of entries of s that satisfy p. */
  function CountWhere<T>(s: seq<T>, p: T -> bool): (n: nat)
    ensures n <= |s|
  {
    if s == [] then 0 else (if p(s[0]) then 1 else 0) + CountWhere(s[1..], p)
  }

  lemma {:induction false} CountAll<T>(s: seq<T>, p: T -> bool)
    requires forall i :: 0 <= i < |s| ==> p(s[i])
    ensures CountWhere(s, p) == |s|
  {
    if s != [] {
      CountAll(s[1..], p);
    }
  }

  /** A subsequence has no more entries of any kind than the sequence it
      comes from. */
  lemma {:induction false} SubseqCount<T>(c: seq<T>, a: seq<T>, p: T -> bool)
    requires IsSubseq(c, a)
    ensures CountWhere(c, p) <= CountWhere(a, p)
    decreases |a|
  {
    if c != [] && a != [] {
      if c[0] == a[0] && IsSubseq(c[1..], a[1..]) {
        SubseqCount(c[1..], a[1..], p);
      } else {
        SubseqCount(c, a[1..], p);
      }
    }
  }

  /** For an input without repeated elements no combination comes out twice;
      together with CombinationsSound and CombinationsComplete, each
      size-element subsequence comes out exactly once. */
  lemma {:induction false} CombinationsDistinct<T>(arr: seq<T>, size: nat)
    requires size >= 1 && Distinct(arr)
    ensures Distinct(Combinations(arr, size))
    decreases |arr|, 1, 0
  {
    if size > |arr| {
    } else if size == 1 {
    } else {
      CombosFromDistinct(arr, size, 0);
    }
  }

  lemma {:induction false} CombosFromDistinct<T>(arr: seq<T>, size: nat, i: nat)
    requires 2 <= size <= |arr| && Distinct(arr)
    ensures Distinct(CombosFrom(arr, size, i))
    ensures forall c :: c in CombosFrom(arr, size, i) ==>
              c != [] && exists j :: i <= j < |arr| && c[0] == arr[j]
    decreases |arr|, 0, |arr| - i
  {
    if i <= |arr| - size {
      var tails := Combinations(arr[i + 1..], size - 1);
      var block := Prepend(arr[i], tails);
      var rest := CombosFrom(arr, size, i + 1);
      assert Distinct(arr[i + 1..]);
      CombinationsDistinct(arr[i + 1..], size - 1);
      CombosFromDistinct(arr, size, i + 1);
      assert forall c :: c in block ==> c[0] == arr[i];
      forall c | c in rest ensures c[0] != arr[i] {
        var j :| i + 1 <= j < |arr| && c[0] == arr[j];
      }
      var all := block + rest;
      forall p, q | 0 <= p < q < |all| ensures all[p] != all[q] {
        if q < |block| {
          assert tails[p] != tails[q];
          assert all[p][1..] == tails[p] && all[q][1..] == tails[q];
        } else if p >= |block| {
          assert all[p] == rest[p - |block|] && all[q] == rest[q - |block|];
        } else {
          assert all[p] in block && all[q] in rest;
        }
      }
      forall c | c in all ensures c != [] && exists j :: i <= j < |arr| && c[0] == arr[j] {
        if c in block {
          assert c[0] == arr[i];
        } else {
          var j :| i + 1 <= j < |arr| && c[0] == arr[j];
        }
      }
    }
  }

  /** The first combination is the first size elements. */
  lemma {:induction false} FirstCombination<T>(arr: seq<T>, size: nat)
    requires 1 <= size <= |arr|
    ensures |Combinations(arr, size)| > 0 && Combinations(arr, size)[0] == arr[..size]
    decreases |arr|
  {
    if size > 1 {
      FirstCombination(arr[1..], size - 1);
      assert [arr[0]] + arr[1..][..size - 1] == arr[..size];
    }
  }
}
