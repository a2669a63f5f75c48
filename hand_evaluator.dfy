/** The hand evaluator of the single-player game (poker-game.js): ranking a
    five-card hand into the categories 0 (high card) to 9 (royal flush), the
    integer tiebreak key within a category, and the choice of the best five
    cards out of a player's seven. */
module HandEvaluator {
  import opened Wrappers
  import opened Cards
  import opened Subsets

  // ---------------------------------------------------------------------
  // Values and sorting

  /** The values of the cards through the rank table, in hand order. */
  function Values(hand: seq<Card>): (vs: seq<int>)
    ensures |vs| == |hand|
    ensures forall i :: 0 <= i < |hand| ==> vs[i] == RankValue(hand[i].rank)
  {
    seq(|hand|, i requires 0 <= i < |hand| => RankValue(hand[i].rank))
  }

  function Ranks(hand: seq<Card>): (rs: seq<Rank>)
    ensures |rs| == |hand|
    ensures forall i :: 0 <= i < |hand| ==> rs[i] == hand[i].rank
  {
    seq(|hand|, i requires 0 <= i < |hand| => hand[i].rank)
  }

  predicate Ascending(xs: seq<int>) {
    forall i, j :: 0 <= i < j < |xs| ==> xs[i] <= xs[j]
  }

  predicate Descending(xs: seq<int>) {
    forall i, j :: 0 <= i < j < |xs| ==> xs[i] >= xs[j]
  }

  lemma AscendingCons(h: int, t: seq<int>)
    requires Ascending(t) && (t == [] || h <= t[0])
    ensures Ascending([h] + t)
  {
  }

  function Insert(x: int, xs: seq<int>): (r: seq<int>)
    requires Ascending(xs)
    ensures Ascending(r) && multiset(r) == multiset(xs) + multiset{x} && |r| == |xs| + 1
    ensures r[0] == (if xs == [] || x <= xs[0] then x else xs[0])
  {
    if xs == [] then [x]
    else if x <= xs[0] then
      AscendingCons(x, xs);
      [x] + xs
    else
      assert xs == [xs[0]] + xs[1..];
      var rest := Insert(x, xs[1..]);
      AscendingCons(xs[0], rest);
      [xs[0]] + rest
  }

  /** sort((a, b) => a - b) */
  function SortAscending(xs: seq<int>): (r: seq<int>)
    ensures Ascending(r) && multiset(r) == multiset(xs) && |r| == |xs|
  {
    if xs == [] then []
    else
      assert xs == xs[..|xs| - 1] + [xs[|xs| - 1]];
      Insert(xs[|xs| - 1], SortAscending(xs[..|xs| - 1]))
  }

  function Reverse(xs: seq<int>): (r: seq<int>)
    ensures |r| == |xs| && forall i :: 0 <= i < |xs| ==> r[i] == xs[|xs| - 1 - i]
  {
    if xs == [] then [] else [xs[|xs| - 1]] + Reverse(xs[..|xs| - 1])
  }

  lemma {:induction false} ReversePermutes(xs: seq<int>)
    ensures multiset(Reverse(xs)) == multiset(xs)
  {
    if xs != [] {
      ReversePermutes(xs[..|xs| - 1]);
      assert xs == xs[..|xs| - 1] + [xs[|xs| - 1]];
    }
  }

  /** sort((a, b) => b - a) */
  function SortDescending(xs: seq<int>): (r: seq<int>)
    ensures Descending(r) && multiset(r) == multiset(xs) && |r| == |xs|
  {
    ReversePermutes(SortAscending(xs));
    Reverse(SortAscending(xs))
  }

  /** There is only one ascending arrangement of a multiset of numbers, so a
      sort result is fixed by the values alone. */
  lemma {:induction false} SortedUnique(a: seq<int>, b: seq<int>)
    requires Ascending(a) && Ascending(b) && multiset(a) == multiset(b)
    ensures a == b
    decreases |a|
  {
    if a == [] {
      assert |multiset(b)| == 0;
    } else {
      assert b != [] by {
        assert a[0] in multiset(a);
      }
      assert a == [a[0]] + a[1..];
      assert b == [b[0]] + b[1..];
      assert a[0] in b by {
        assert a[0] in multiset(b);
      }
      assert b[0] in a by {
        assert b[0] in multiset(a);
      }
      assert a[0] == b[0];
      assert multiset(a[1..]) == multiset(a) - multiset{a[0]};
      assert multiset(b[1..]) == multiset(b) - multiset{b[0]};
      SortedUnique(a[1..], b[1..]);
    }
  }

  // ---------------------------------------------------------------------
  // Rank counts

  /** The ranks of the hand without repeats, in the order they first
      appear. */
  function DistinctRanks(hand: seq<Card>): (ds: seq<Rank>)
    ensures Distinct(ds)
    ensures forall r :: r in ds <==> r in Ranks(hand)
  {
    if hand == [] then []
    else
      var d := DistinctRanks(hand[..|hand| - 1]);
      assert Ranks(hand) == Ranks(hand[..|hand| - 1]) + [hand[|hand| - 1].rank];
      if hand[|hand| - 1].rank in d then d else d + [hand[|hand| - 1].rank]
  }

  /** Number of cards of rank r. */
  function CountOf(hand: seq<Card>, r: Rank): nat {
    multiset(Ranks(hand))[r]
  }

  datatype RankCount = RankCount(rank: Rank, count: nat)

  /** getRankCounts: every rank of the hand with its number of cards. */
  function RankCounts(hand: seq<Card>): (counts: seq<RankCount>)
    ensures forall i :: 0 <= i < |counts| ==> counts[i].count >= 1
    ensures forall r :: r in Ranks(hand) <==> exists i :: 0 <= i < |counts| && counts[i].rank == r
    ensures forall i :: 0 <= i < |counts| ==> counts[i].count == CountOf(hand, counts[i].rank)
  {
    var ds := DistinctRanks(hand);
    var counts := seq(|ds|, i requires 0 <= i < |ds| => RankCount(ds[i], CountOf(hand, ds[i])));
    forall i | 0 <= i < |ds| ensures counts[i].count >= 1 {
      assert ds[i] in ds;
      assert ds[i] in Ranks(hand);
      assert ds[i] in multiset(Ranks(hand));
    }
    assert forall r :: r in Ranks(hand) ==> exists i :: 0 <= i < |counts| && counts[i].rank == r by {
      forall r | r in Ranks(hand) ensures exists i :: 0 <= i < |counts| && counts[i].rank == r {
        var i :| 0 <= i < |ds| && ds[i] == r;
        assert counts[i].rank == r;
      }
    }
    counts
  }

  /** Object.values of the rank counts. */
  function Counts(hand: seq<Card>): (cs: seq<int>)
    ensures |cs| == |RankCounts(hand)|
    ensures forall i :: 0 <= i < |cs| ==> cs[i] == RankCounts(hand)[i].count
  {
    var rc := RankCounts(hand);
    seq(|rc|, i requires 0 <= i < |rc| => rc[i].count)
  }

  /** A count n appears among the counts exactly when some rank of the hand
      has n cards. */
  lemma CountsHas(hand: seq<Card>, n: int)
    ensures n in Counts(hand) <==> exists r :: r in Ranks(hand) && CountOf(hand, r) == n
  {
    var rc := RankCounts(hand);
    if n in Counts(hand) {
      var i :| 0 <= i < |rc| && rc[i].count == n;
      assert rc[i].rank in Ranks(hand);
    }
    if r :| r in Ranks(hand) && CountOf(hand, r) == n {
      var i :| 0 <= i < |rc| && rc[i].rank == r;
      assert Counts(hand)[i] == n;
    }
  }

  // ---------------------------------------------------------------------
  // The category predicates

  predicate IsFourOfAKind(hand: seq<Card>) {
    4 in Counts(hand)
  }

  /** The counts sorted from high to low start with 3 and 2. */
  predicate IsFullHouse(hand: seq<Card>) {
    var cs := SortDescending(Counts(hand));
    |cs| >= 2 && cs[0] == 3 && cs[1] == 2
  }

  function Suits(hand: seq<Card>): set<Suit> {
    set i | 0 <= i < |hand| :: hand[i].suit
  }

  predicate IsFlush(hand: seq<Card>) {
    |Suits(hand)| == 1
  }

  const Wheel: seq<int> := [2, 3, 4, 5, 14]

  /** The sorted values rise by one at each of the first four steps, or are
      the wheel. With fewer than five cards the source reads undefined
      entries and answers false, as here. */
  predicate IsStraight(hand: seq<Card>) {
    StraightShape(SortAscending(Values(hand)))
  }

  /** The test isStraight applies to the sorted values. */
  predicate StraightShape(v: seq<int>) {
    |v| >= 5 && ((forall i :: 0 <= i < 4 ==> v[i + 1] - v[i] == 1) || v[..5] == Wheel)
  }

  predicate IsThreeOfAKind(hand: seq<Card>) {
    3 in Counts(hand)
  }

  /** Exactly two ranks hold two cards each. */
  predicate IsTwoPair(hand: seq<Card>) {
    multiset(Counts(hand))[2] == 2
  }

  predicate IsPair(hand: seq<Card>) {
    2 in Counts(hand)
  }

  /** Every value of the sequence is the value of some card of the hand. */
  predicate HasSequence(hand: seq<Card>, sequence: seq<int>) {
    forall k :: 0 <= k < |sequence| ==> sequence[k] in Values(hand)
  }

  const Broadway: seq<int> := [10, 11, 12, 13, 14]

  predicate IsRoyalFlush(hand: seq<Card>) {
    IsFlush(hand) && HasSequence(hand, Broadway)
  }

  predicate IsStraightFlush(hand: seq<Card>) {
    IsFlush(hand) && IsStraight(hand)
  }

  /** getHandRank: the first category whose test matches, from royal flush
      (9) down to pair (1); 0 for high card. */
  function HandRank(hand: seq<Card>): (rank: int)
    ensures 0 <= rank <= 9
    ensures rank == 9 <==> IsRoyalFlush(hand)
    ensures rank == 0 <==> !IsFlush(hand) && !IsStraight(hand) && !IsFourOfAKind(hand)
                           && !IsThreeOfAKind(hand) && !IsPair(hand) && !IsTwoPair(hand)
  {
    if IsRoyalFlush(hand) then 9
    else if IsStraightFlush(hand) then 8
    else if IsFourOfAKind(hand) then 7
    else if IsFullHouse(hand) then 6
    else if IsFlush(hand) then 5
    else if IsStraight(hand) then 4
    else if IsThreeOfAKind(hand) then 3
    else if IsTwoPair(hand) then 2
    else if IsPair(hand) then 1
    else 0
  }

  // ---------------------------------------------------------------------
  // What the categories mean

  function Run(lo: int): seq<int> {
    [lo, lo + 1, lo + 2, lo + 3, lo + 4]
  }

  lemma RunAscending(lo: int)
    ensures Ascending(Run(lo)) && StraightShape(Run(lo))
  {
    assert Run(lo)[..5] == Run(lo);
  }

  lemma WheelShape()
    ensures Ascending(Wheel) && StraightShape(Wheel)
  {
    assert Wheel[..5] == Wheel;
  }

  /** Sorted five values pass the straight test exactly when, as a
      collection, they are five consecutive numbers or A, 2, 3, 4, 5. */
  /** Five values that pass the straight test and are not the wheel rise
      by one at each step. */
  lemma ShapeIsRun(v: seq<int>)
    requires |v| == 5 && StraightShape(v) && v != Wheel
    ensures v == Run(v[0])
  {
    assert v[..5] == v;
    assert v[1] - v[0] == 1 && v[2] - v[1] == 1 && v[3] - v[2] == 1 && v[4] - v[3] == 1;
  }

  lemma StraightShapeIff(v: seq<int>)
    requires |v| == 5 && Ascending(v)
    ensures StraightShape(v) <==>
              (exists lo :: multiset(v) == multiset(Run(lo))) || multiset(v) == multiset(Wheel)
  {
    if StraightShape(v) && v != Wheel {
      ShapeIsRun(v);
    }
    if lo :| multiset(v) == multiset(Run(lo)) {
      RunAscending(lo);
      SortedUnique(v, Run(lo));
    } else if multiset(v) == multiset(Wheel) {
      WheelShape();
      SortedUnique(v, Wheel);
    }
  }

  /** A five-card hand is a straight exactly when its values are five
      consecutive numbers or are A, 2, 3, 4, 5. */
  lemma StraightIffRun(hand: seq<Card>)
    requires |hand| == 5
    ensures IsStraight(hand) <==>
              (exists lo :: multiset(Values(hand)) == multiset(Run(lo)))
              || multiset(Values(hand)) == multiset(Wheel)
  {
    StraightShapeIff(SortAscending(Values(hand)));
  }

  lemma {:induction false} DistinctMultiplicity<T>(v: seq<T>, x: T)
    requires forall i, j :: 0 <= i < j < |v| ==> v[i] != v[j]
    ensures multiset(v)[x] <= 1
  {
    if v != [] {
      var n := |v| - 1;
      assert v == v[..n] + [v[n]];
      DistinctMultiplicity(v[..n], x);
      if v[n] == x {
        assert x !in v[..n];
      }
    }
  }

  lemma RepeatMultiplicity<T>(s: seq<T>, i: int, j: int)
    requires 0 <= i < j < |s| && s[i] == s[j]
    ensures multiset(s)[s[i]] >= 2
  {
    assert s == s[..i] + [s[i]] + s[i + 1..j] + [s[j]] + s[j + 1..];
  }

  /** Sorted values that pass the straight test hold no value twice. */
  lemma StraightShapeNoRepeat(v: seq<int>, x: int)
    requires |v| == 5 && StraightShape(v)
    ensures multiset(v)[x] <= 1
  {
    assert v[..5] == v;
    if v != Wheel {
      assert v[1] - v[0] == 1 && v[2] - v[1] == 1 && v[3] - v[2] == 1 && v[4] - v[3] == 1;
    }
    DistinctMultiplicity(v, x);
  }

  /** Two cards of the same rank rule a straight out. */
  lemma PairedNotStraight(hand: seq<Card>, i: int, j: int)
    requires |hand| == 5 && 0 <= i < j < 5 && hand[i].rank == hand[j].rank
    ensures !IsStraight(hand)
  {
    var vs := Values(hand);
    var v := SortAscending(vs);
    RepeatMultiplicity(vs, i, j);
    if StraightShape(v) {
      StraightShapeNoRepeat(v, vs[i]);
      assert false;
    }
  }

  /** Five sorted values between 2 and 14 that include 10, J, Q, K and A
      are exactly those. */
  lemma BroadwayOnly(v: seq<int>)
    requires |v| == 5 && Ascending(v) && forall k :: 0 <= k < 5 ==> v[k] <= 14
    requires 10 in v && 11 in v && 12 in v && 13 in v && 14 in v
    ensures v == Broadway
  {
  }

  /** A royal flush is a straight flush whose sorted values are 10 to ace. */
  lemma RoyalIsStraightFlush(hand: seq<Card>)
    requires |hand| == 5 && IsRoyalFlush(hand)
    ensures IsStraightFlush(hand)
    ensures SortAscending(Values(hand)) == Broadway
  {
    var vs := Values(hand);
    var v := SortAscending(vs);
    forall k | 0 <= k < 5 ensures Broadway[k] in v {
      assert Broadway[k] in vs;
      assert Broadway[k] in multiset(vs);
    }
    forall k | 0 <= k < 5 ensures v[k] <= 14 {
      assert v[k] in multiset(vs);
    }
    assert Broadway[0] in v && Broadway[1] in v && Broadway[2] in v;
    assert Broadway[3] in v && Broadway[4] in v;
    BroadwayOnly(v);
    RunAscending(10);
    assert Run(10) == Broadway;
  }

  /** No two cards of the hand have the same suit and rank. */
  predicate NoRepeatedCard(hand: seq<Card>) {
    forall i, j :: 0 <= i < j < |hand| ==> !Equals(hand[i], hand[j])
  }

  /** An element occurs at most as often as the sequence is long, and that
      often only when every entry is it. */
  lemma {:induction false} FullCount<T>(s: seq<T>, x: T)
    ensures multiset(s)[x] <= |s|
    ensures multiset(s)[x] == |s| ==> forall i :: 0 <= i < |s| ==> s[i] == x
  {
    if s != [] {
      var n := |s| - 1;
      assert s == s[..n] + [s[n]];
      FullCount(s[..n], x);
      if multiset(s)[x] == |s| {
        assert s[n] == x;
        forall i | 0 <= i < |s| ensures s[i] == x {
          if i < n {
            assert s[i] == s[..n][i];
          }
        }
      }
    }
  }

  /** Among any five suits two are the same. */
  lemma SuitPigeonhole(s0: Suit, s1: Suit, s2: Suit, s3: Suit, s4: Suit)
    ensures s0 == s1 || s0 == s2 || s0 == s3 || s0 == s4 || s1 == s2
         || s1 == s3 || s1 == s4 || s2 == s3 || s2 == s4 || s3 == s4
  {
  }

  /** Five cards none of which repeats another hold at most four of any
      rank: there are only four suits. */
  lemma AtMostFourOfARank(hand: seq<Card>, r: Rank)
    requires |hand| == 5 && NoRepeatedCard(hand)
    ensures CountOf(hand, r) <= 4
  {
    var rs := Ranks(hand);
    FullCount(rs, r);
    if CountOf(hand, r) == 5 {
      assert forall i :: 0 <= i < 5 ==> hand[i].rank == r;
      SuitPigeonhole(hand[0].suit, hand[1].suit, hand[2].suit, hand[3].suit, hand[4].suit);
      assert false;
    }
  }

  /** Two cards of one rank, in a hand without a repeated card, make it at
      least a pair, trips or quads. */
  lemma RepeatedRankMatches(hand: seq<Card>, i: int, j: int)
    requires |hand| == 5 && NoRepeatedCard(hand)
    requires 0 <= i < j < 5 && hand[i].rank == hand[j].rank
    ensures IsPair(hand) || IsThreeOfAKind(hand) || IsFourOfAKind(hand)
  {
    var r := hand[i].rank;
    var rs := Ranks(hand);
    RepeatMultiplicity(rs, i, j);
    AtMostFourOfARank(hand, r);
    assert r in rs;
    CountsHas(hand, CountOf(hand, r));
  }

  /** A hand ranked high card whose cards are all different holds five
      different ranks: a rank held twice, three or four times would have
      matched pair, trips or quads, and five cards of one rank need five
      suits. */
  lemma HighCardRanksDiffer(hand: seq<Card>)
    requires |hand| == 5 && NoRepeatedCard(hand) && HandRank(hand) == 0
    ensures forall i, j :: 0 <= i < j < 5 ==> hand[i].rank != hand[j].rank
  {
    forall i, j | 0 <= i < j < 5 ensures hand[i].rank != hand[j].rank {
      if hand[i].rank == hand[j].rank {
        RepeatedRankMatches(hand, i, j);
      }
    }
  }

  // ---------------------------------------------------------------------
  // Tiebreak keys

  /** The digits read as a number in base 100, most significant first. */
  function Key(ds: seq<int>): int {
    if ds == [] then 0 else Key(ds[..|ds| - 1]) * 100 + ds[|ds| - 1]
  }

  predicate Digits(ds: seq<int>) {
    forall i :: 0 <= i < |ds| ==> 0 <= ds[i] < 100
  }

  /** a comes before b in dictionary order (for sequences of one length):
      the fronts already differ that way, or they agree and the last entry
      decides. */
  predicate LexLess(a: seq<int>, b: seq<int>)
    requires |a| == |b|
  {
    a != [] &&
    (LexLess(a[..|a| - 1], b[..|b| - 1])
     || (a[..|a| - 1] == b[..|b| - 1] && a[|a| - 1] < b[|b| - 1]))
  }

  lemma {:induction false} KeyNonNegative(ds: seq<int>)
    requires Digits(ds)
    ensures 0 <= Key(ds)
  {
    if ds != [] {
      KeyNonNegative(ds[..|ds| - 1]);
    }
  }

  /** Comparing keys of equally long digit sequences compares the digits in
      dictionary order, and equal keys mean equal digits: a key decides a
      tie by its first digit, then its second, and so on. */
  lemma {:induction false} KeyOrder(a: seq<int>, b: seq<int>)
    requires Digits(a) && Digits(b) && |a| == |b|
    ensures Key(a) < Key(b) <==> LexLess(a, b)
    ensures Key(a) == Key(b) <==> a == b
  {
    if a != [] {
      var n := |a| - 1;
      KeyOrder(a[..n], b[..n]);
      assert a == a[..n] + [a[n]] && b == b[..n] + [b[n]];
    }
  }

  /** The first rank (in count order) held by exactly n cards whose value is
      not excluded, as its value; None where the source finds nothing. */
  function RankOfCount(hand: seq<Card>, n: int, exclude: Option<int>): (v: Option<int>)
    ensures v.Some? ==> 2 <= v.value <= 14
    ensures v.Some? ==> exists r :: r in Ranks(hand) && CountOf(hand, r) == n
                                    && RankValue(r) == v.value && exclude != Some(v.value)
  {
    FirstOfCount(RankCounts(hand), n, exclude)
  }

  function FirstOfCount(rc: seq<RankCount>, n: int, exclude: Option<int>): (v: Option<int>)
    ensures v.Some? ==> exists i :: 0 <= i < |rc| && rc[i].count == n
                                    && RankValue(rc[i].rank) == v.value && exclude != Some(v.value)
  {
    if rc == [] then None
    else if rc[0].count == n && exclude != Some(RankValue(rc[0].rank)) then Some(RankValue(rc[0].rank))
    else
      var v := FirstOfCount(rc[1..], n, exclude);
      assert v.Some? ==> exists i :: 1 <= i < |rc| && rc[i].count == n
                                     && RankValue(rc[i].rank) == v.value;
      v
  }

  /** getPairRank: the value of a pair other than exclude, or 0. */
  function PairRank(hand: seq<Card>, exclude: Option<int>): (v: int)
    ensures 0 <= v < 100
  {
    ValueOr0(RankOfCount(hand, 2, exclude))
  }

  /** getTwoPairRanks: the values of every rank held exactly twice. */
  function TwoPairRanks(hand: seq<Card>): (ps: seq<int>)
    ensures forall k :: 0 <= k < |ps| ==> 2 <= ps[k] <= 14
  {
    PairValues(RankCounts(hand))
  }

  function PairValues(rc: seq<RankCount>): (ps: seq<int>)
    ensures forall k :: 0 <= k < |ps| ==> 2 <= ps[k] <= 14
  {
    if rc == [] then []
    else (if rc[0].count == 2 then [RankValue(rc[0].rank)] else []) + PairValues(rc[1..])
  }

  /** values.filter(v => !excluded.includes(v)) */
  function Without(values: seq<int>, excluded: seq<int>): (r: seq<int>)
    ensures forall k :: 0 <= k < |r| ==> r[k] in values && r[k] !in excluded
    ensures Digits(values) ==> Digits(r)
  {
    if values == [] then []
    else (if values[0] in excluded then [] else [values[0]]) + Without(values[1..], excluded)
  }

  /** Entry i, or 0 where the source would read past the end. */
  function At(xs: seq<int>, i: nat): (v: int)
    ensures Digits(xs) ==> 0 <= v < 100
  {
    if i < |xs| then xs[i] else 0
  }

  function ValueOr0(o: Option<int>): (v: int)
    ensures o.Some? && 0 <= o.value < 100 ==> 0 <= v < 100
    ensures o.None? ==> v == 0
  {
    match o
    case Some(v) => v
    case None => 0
  }

  /** Math.max over a non-empty list; 0 for none. */
  function MaxOf(xs: seq<int>): (m: int)
    ensures xs == [] ==> m == 0
    ensures xs != [] ==> m in xs && forall k :: 0 <= k < |xs| ==> xs[k] <= m
  {
    if xs == [] then 0
    else if |xs| == 1 then xs[0]
    else var m := MaxOf(xs[1..]); if xs[0] > m then xs[0] else m
  }

  /** Math.min over a non-empty list; 0 for none. */
  function MinOf(xs: seq<int>): (m: int)
    ensures xs == [] ==> m == 0
    ensures xs != [] ==> m in xs && forall k :: 0 <= k < |xs| ==> m <= xs[k]
  {
    if xs == [] then 0
    else if |xs| == 1 then xs[0]
    else var m := MinOf(xs[1..]); if xs[0] < m then xs[0] else m
  }

  lemma SortedValueDigits(hand: seq<Card>)
    ensures Digits(SortDescending(Values(hand)))
  {
    var v := SortDescending(Values(hand));
    forall k | 0 <= k < |v| ensures 0 <= v[k] < 100 {
      assert v[k] in multiset(Values(hand));
    }
  }

  lemma SmallDigits(a: int, b: int, c: int, d: int, e: int)
    requires 0 <= a < 100 && 0 <= b < 100 && 0 <= c < 100 && 0 <= d < 100 && 0 <= e < 100
    ensures Digits([a, b]) && Digits([a, b, c]) && Digits([a, b, c, d]) && Digits([a, b, c, d, e])
  {
  }

  /** The digits of getTiebreaker's key for a hand of the given rank: quads
      and kicker; trips and pair; trips and two kickers; high pair, low pair
      and kicker; pair and three kickers; otherwise the five values from high
      to low. */
  function TiebreakDigits(hand: seq<Card>, rank: int): (ds: seq<int>)
    ensures Digits(ds)
  {
    if rank == 7 then QuadsDigits(hand)
    else if rank == 6 then FullHouseDigits(hand)
    else if rank == 3 then TripsDigits(hand)
    else if rank == 2 then TwoPairDigits(hand)
    else if rank == 1 then PairDigits(hand)
    else SortedValueDigits(hand); SortDescending(Values(hand))
  }

  /** The rank held four times, then the kicker. */
  function QuadsDigits(hand: seq<Card>): (ds: seq<int>)
    ensures Digits(ds)
  {
    var values := SortDescending(Values(hand));
    SortedValueDigits(hand);
    var four := ValueOr0(RankOfCount(hand, 4, None));
    var kicker := At(Without(values, [four]), 0);
    SmallDigits(four, kicker, 0, 0, 0);
    [four, kicker]
  }

  /** The rank held three times, then the pair. */
  function FullHouseDigits(hand: seq<Card>): (ds: seq<int>)
    ensures Digits(ds)
  {
    var three := ValueOr0(RankOfCount(hand, 3, None));
    var pair := PairRank(hand, Some(three));
    SmallDigits(three, pair, 0, 0, 0);
    [three, pair]
  }

  /** The rank held three times, then two kickers. */
  function TripsDigits(hand: seq<Card>): (ds: seq<int>)
    ensures Digits(ds)
  {
    var values := SortDescending(Values(hand));
    SortedValueDigits(hand);
    var trips := ValueOr0(RankOfCount(hand, 3, None));
    var kickers := Without(values, [trips]);
    var k0, k1 := At(kickers, 0), At(kickers, 1);
    SmallDigits(trips, k0, k1, 0, 0);
    [trips, k0, k1]
  }

  /** The higher pair, the lower pair, then the kicker. */
  function TwoPairDigits(hand: seq<Card>): (ds: seq<int>)
    ensures Digits(ds)
  {
    var values := SortDescending(Values(hand));
    SortedValueDigits(hand);
    var pairs := TwoPairRanks(hand);
    var high, low := MaxOf(pairs), MinOf(pairs);
    var kicker := At(Without(values, pairs), 0);
    SmallDigits(high, low, kicker, 0, 0);
    [high, low, kicker]
  }

  /** The pair, then three kickers. */
  function PairDigits(hand: seq<Card>): (ds: seq<int>)
    ensures Digits(ds)
  {
    var values := SortDescending(Values(hand));
    SortedValueDigits(hand);
    var pair := PairRank(hand, None);
    var kickers := Without(values, [pair]);
    var k0, k1, k2 := At(kickers, 0), At(kickers, 1), At(kickers, 2);
    SmallDigits(pair, k0, k1, k2, 0);
    [pair, k0, k1, k2]
  }

  /** Straights, flushes and high cards are keyed by their values from high
      to low. */
  lemma ValuesTiebreak(hand: seq<Card>, rank: int)
    requires rank !in {1, 2, 3, 6, 7}
    ensures TiebreakDigits(hand, rank) == SortDescending(Values(hand))
  {
  }

  /** getTiebreaker */
  function Tiebreaker(hand: seq<Card>, rank: int): int
  {
    Key(TiebreakDigits(hand, rank))
  }

  /** The first digit decides between keys of equally long digit
      sequences. */
  lemma {:induction false} KeyFirstDigit(a: seq<int>, b: seq<int>)
    requires Digits(a) && Digits(b) && |a| == |b| > 0 && a[0] < b[0]
    ensures Key(a) < Key(b)
    decreases |a|
  {
    var n := |a| - 1;
    if n > 0 {
      KeyFirstDigit(a[..n], b[..n]);
    }
  }

  // ---------------------------------------------------------------------
  // Choosing the best five cards, as written

  /** The rank of every item, in order. */
  function RanksBy<T>(items: seq<T>, rank: T -> int): (rs: seq<int>)
    ensures |rs| == |items| && forall j :: 0 <= j < |items| ==> rs[j] == rank(items[j])
  {
    seq(|items|, j requires 0 <= j < |items| => rank(items[j]))
  }

  function HandRanks(combos: seq<seq<Card>>): (rs: seq<int>)
    ensures |rs| == |combos| && forall j :: 0 <= j < |combos| ==> rs[j] == HandRank(combos[j])
  {
    RanksBy(combos, HandRank)
  }

  function RankAt(rs: seq<int>, best: Option<nat>): int {
    match best
    case Some(k) => if k < |rs| then rs[k] else 0
    case None => 0
  }

  /** The scan findBestHand makes, over the ranks of the combinations: an
      entry replaces the best so far only when it is strictly higher,
      starting from rank 0 and no entry. */
  function BestIndex(rs: seq<int>): (best: Option<nat>)
    ensures best.Some? ==> best.value < |rs|
  {
    if rs == [] then None
    else
      var best := BestIndex(rs[..|rs| - 1]);
      if rs[|rs| - 1] > RankAt(rs[..|rs| - 1], best) then Some(|rs| - 1) else best
  }

  /** The scan finds nothing exactly when no rank is above 0; otherwise it
      finds the first position of the highest rank. */
  lemma {:induction false} BestIndexSpec(rs: seq<int>)
    ensures BestIndex(rs).None? <==> forall j :: 0 <= j < |rs| ==> rs[j] <= 0
    ensures BestIndex(rs).Some? ==>
              var k := BestIndex(rs).value;
              && rs[k] > 0
              && (forall j :: 0 <= j < k ==> rs[j] < rs[k])
              && (forall j :: 0 <= j < |rs| ==> rs[j] <= rs[k])
  {
    if rs != [] {
      var n := |rs| - 1;
      BestIndexSpec(rs[..n]);
      assert forall j :: 0 <= j < n ==> rs[j] == rs[..n][j];
    }
  }

  function Pick<T>(items: seq<T>, index: Option<nat>): Option<T> {
    match index
    case Some(k) => if k < |items| then Some(items[k]) else None
    case None => None
  }

  /** The hand findBestHand picks, as a function of the combinations. */
  function BestByRank(combos: seq<seq<Card>>): Option<seq<Card>> {
    Pick(combos, BestIndex(HandRanks(combos)))
  }

  /** The forEach loop of findBestHand: keeps an item whenever its rank
      beats the best rank so far, which starts at 0. */
  method ScanHighest<T>(items: seq<T>, rank: T -> int) returns (best: Option<T>)
    ensures best == Pick(items, BestIndex(RanksBy(items, rank)))
  {
    ghost var rs := RanksBy(items, rank);
    best := None;
    var bestRank := 0;
    ghost var index: Option<nat> := None;
    var i := 0;
    while i < |items|
      invariant 0 <= i <= |items|
      invariant index == BestIndex(rs[..i]) && bestRank == RankAt(rs[..i], index)
      invariant best == Pick(items, index)
    {
      assert rs[..i + 1][..i] == rs[..i];
      var r := rank(items[i]);
      if r > bestRank {
        bestRank := r;
        best := Some(items[i]);
        index := Some(i);
      }
      i := i + 1;
    }
    assert rs[..i] == rs;
  }

  /** findBestHand: scans the five-card combinations once, keeping a
      combination whenever its rank beats the best rank so far. It answers
      nothing exactly when every combination is high card, and otherwise a
      combination of the highest rank present. */
  method FindBestHand(cards: seq<Card>) returns (best: Option<seq<Card>>)
    ensures best == BestByRank(Combinations(cards, 5))
    ensures best.None? <==> forall h :: h in Combinations(cards, 5) ==> HandRank(h) == 0
    ensures best.Some? ==> best.value in Combinations(cards, 5) && |best.value| == 5
                           && forall h :: h in Combinations(cards, 5) ==> HandRank(h) <= HandRank(best.value)
  {
    var combos := Combinations(cards, 5);
    best := ScanHighest(combos, HandRank);
    BestByRankMeaning(combos);
    CombinationsSound(cards, 5);
  }

  /** What the scan's answer means for the combinations themselves. */
  lemma BestByRankMeaning(combos: seq<seq<Card>>)
    ensures BestByRank(combos).None? <==> forall h :: h in combos ==> HandRank(h) == 0
    ensures BestByRank(combos).Some? ==>
              BestByRank(combos).value in combos
              && forall h :: h in combos ==> HandRank(h) <= HandRank(BestByRank(combos).value)
  {
    var rs := HandRanks(combos);
    BestIndexSpec(rs);
    if BestByRank(combos).None? {
      forall h | h in combos ensures HandRank(h) == 0 {
        var j :| 0 <= j < |combos| && combos[j] == h;
        assert rs[j] == HandRank(h);
      }
    } else {
      var k := BestIndex(rs).value;
      forall h | h in combos ensures HandRank(h) <= HandRank(combos[k]) {
        var j :| 0 <= j < |combos| && combos[j] == h;
        assert rs[j] == HandRank(h);
      }
      assert HandRank(combos[k]) > 0;
    }
  }

  // ---------------------------------------------------------------------
  // Tiebreak with the ace low in the wheel

  predicate IsWheel(hand: seq<Card>) {
    SortAscending(Values(hand)) == Wheel
  }

  /** The tiebreak digits with the wheel's ace counted as 1 in a straight or
      straight flush, so that A-2-3-4-5 is the lowest straight. */
  function FixedTiebreakDigits(hand: seq<Card>, rank: int): (ds: seq<int>)
    ensures Digits(ds)
  {
    if (rank == 4 || rank == 8) && IsWheel(hand) then
      SmallDigits(5, 4, 3, 2, 1);
      [5, 4, 3, 2, 1]
    else TiebreakDigits(hand, rank)
  }

  /** Every hand but the wheel keeps getTiebreaker's digits. */
  lemma FixedKeepsOthers(hand: seq<Card>, rank: int)
    requires !IsWheel(hand)
    ensures FixedTiebreakDigits(hand, rank) == TiebreakDigits(hand, rank)
  {
  }

  function FixedTiebreaker(hand: seq<Card>, rank: int): int
  {
    Key(FixedTiebreakDigits(hand, rank))
  }

  /** A hand's tiebreak key within its own category. */
  function HandKey(hand: seq<Card>): int {
    FixedTiebreaker(hand, HandRank(hand))
  }

  /** a is above b when its major score is higher, or equal with a higher
      minor score. */
  predicate Above<T>(a: T, b: T, major: T -> int, minor: T -> int) {
    major(a) > major(b) || (major(a) == major(b) && minor(a) > minor(b))
  }

  /** Ranks first, then tiebreak keys: the order the showdown sorts hands
      by. */
  predicate Beats(a: seq<Card>, b: seq<Card>) {
    Above(a, b, HandRank, HandKey)
  }

  /** Keeps the first item that no later item is above. */
  method ScanGreatest<T>(items: seq<T>, major: T -> int, minor: T -> int) returns (best: Option<T>)
    ensures best.None? <==> items == []
    ensures best.Some? ==> best.value in items && forall x :: x in items ==> !Above(x, best.value, major, minor)
  {
    if items == [] {
      return None;
    }
    var b := items[0];
    var i := 1;
    while i < |items|
      invariant 1 <= i <= |items|
      invariant b in items[..i]
      invariant forall j :: 0 <= j < i ==> !Above(items[j], b, major, minor)
    {
      if Above(items[i], b, major, minor) {
        b := items[i];
      }
      i := i + 1;
    }
    assert items[..i] == items;
    best := Some(b);
  }

  /** The best five cards as the showdown intends them: among all
      five-card combinations one that no other beats on rank and then on
      tiebreak key; nothing only when there are fewer than five cards. */
  method BestHand(cards: seq<Card>) returns (best: Option<seq<Card>>)
    ensures best.None? <==> |cards| < 5
    ensures best.Some? ==> best.value in Combinations(cards, 5) && |best.value| == 5
                           && forall h :: h in Combinations(cards, 5) ==> !Beats(h, best.value)
  {
    var combos := Combinations(cards, 5);
    if |cards| >= 5 {
      FirstCombination(cards, 5);
    }
    best := ScanGreatest(combos, HandRank, HandKey);
    CombinationsSound(cards, 5);
  }

  // ---------------------------------------------------------------------
  // Two inputs on which the scan and the keys go wrong

  lemma NoAceNotRoyal(hand: seq<Card>)
    requires forall c :: c in hand ==> c.rank != Ace
    ensures !IsRoyalFlush(hand) && HandRank(hand) <= 8
  {
    forall i | 0 <= i < |hand| ensures Values(hand)[i] != 14 {
      assert hand[i] in hand;
    }
    assert Broadway[4] !in Values(hand);
  }

  /** A sort of values already in order returns them unchanged. */
  lemma SortOfSorted(xs: seq<int>)
    requires Ascending(xs)
    ensures SortAscending(xs) == xs
  {
    SortedUnique(SortAscending(xs), xs);
  }

  lemma AllHearts(hand: seq<Card>)
    requires hand != [] && forall i :: 0 <= i < |hand| ==> hand[i].suit == Hearts
    ensures IsFlush(hand)
  {
    assert Suits(hand) == {Hearts} by {
      assert hand[0].suit in Suits(hand);
    }
  }

  lemma ReverseFive(v: seq<int>)
    requires |v| == 5
    ensures Reverse(v) == [v[4], v[3], v[2], v[1], v[0]]
  {
    var r := Reverse(v);
    assert r[0] == v[4] && r[1] == v[3] && r[2] == v[2] && r[3] == v[1] && r[4] == v[0];
  }

  lemma RunDescending(lo: int)
    ensures SortDescending(Run(lo)) == [lo + 4, lo + 3, lo + 2, lo + 1, lo]
  {
    RunAscending(lo);
    SortOfSorted(Run(lo));
    ReverseFive(Run(lo));
  }

  lemma StraightOfRun(hand: seq<Card>, lo: int)
    requires Values(hand) == Run(lo)
    ensures IsStraight(hand)
    ensures SortDescending(Values(hand)) == [lo + 4, lo + 3, lo + 2, lo + 1, lo]
  {
    RunAscending(lo);
    SortOfSorted(Run(lo));
    RunDescending(lo);
  }

  lemma StraightFlushNotRoyal(hand: seq<Card>)
    requires IsStraightFlush(hand) && !IsRoyalFlush(hand)
    ensures HandRank(hand) == 8
  {
  }

  /** Cards whose values all stay below 14 hold no ace. */
  lemma NoAceBelow(hand: seq<Card>)
    requires forall i :: 0 <= i < |hand| ==> Values(hand)[i] < 14
    ensures forall c :: c in hand ==> c.rank != Ace
  {
    forall c | c in hand ensures c.rank != Ace {
      var i :| 0 <= i < |hand| && hand[i] == c;
      assert Values(hand)[i] < 14;
    }
  }

  lemma NoAceInRun(hand: seq<Card>, lo: int)
    requires Values(hand) == Run(lo) && lo + 4 < 14
    ensures forall c :: c in hand ==> c.rank != Ace
  {
    forall i | 0 <= i < |hand| ensures Values(hand)[i] < 14 {
      assert Values(hand)[i] == Run(lo)[i] <= lo + 4;
    }
    NoAceBelow(hand);
  }

  /** Five hearts valued lo to lo + 4, below ace high, rank as a straight
      flush. */
  lemma StraightFlushRank(hand: seq<Card>, lo: int)
    requires |hand| == 5 && forall i :: 0 <= i < 5 ==> hand[i].suit == Hearts
    requires Values(hand) == Run(lo) && lo + 4 < 14
    ensures HandRank(hand) == 8
    ensures SortDescending(Values(hand)) == [lo + 4, lo + 3, lo + 2, lo + 1, lo]
  {
    NoAceInRun(hand, lo);
    NoAceNotRoyal(hand);
    StraightOfRun(hand, lo);
    AllHearts(hand);
    StraightFlushNotRoyal(hand);
  }

  /** Six hearts of consecutive values, the highest below the ace. */
  predicate HeartsRun(six: seq<Card>, lo: int) {
    && |six| == 6
    && (forall i :: 0 <= i < 6 ==> six[i].suit == Hearts)
    && Values(six) == [lo, lo + 1, lo + 2, lo + 3, lo + 4, lo + 5]
    && lo + 5 < 14
  }

  lemma LowFiveOfRun(six: seq<Card>, lo: int)
    requires HeartsRun(six, lo)
    ensures HandRank(six[..5]) == 8
    ensures SortDescending(Values(six[..5])) == [lo + 4, lo + 3, lo + 2, lo + 1, lo]
  {
    var h := six[..5];
    assert forall i :: 0 <= i < 5 ==> h[i] == six[i];
    assert Values(h) == Run(lo);
    StraightFlushRank(h, lo);
  }

  lemma HighFiveOfRun(six: seq<Card>, lo: int)
    requires HeartsRun(six, lo)
    ensures HandRank(six[1..]) == 8
    ensures SortDescending(Values(six[1..])) == [lo + 5, lo + 4, lo + 3, lo + 2, lo + 1]
  {
    var h := six[1..];
    assert forall i :: 0 <= i < 5 ==> h[i] == six[i + 1];
    assert Values(h) == Run(lo + 1);
    StraightFlushRank(h, lo + 1);
  }

  /** No five of the six make a royal flush. */
  lemma RunCombosRanks(six: seq<Card>, lo: int)
    requires HeartsRun(six, lo)
    ensures forall h :: h in Combinations(six, 5) ==> HandRank(h) <= 8
  {
    forall i | 0 <= i < |six| ensures Values(six)[i] < 14 {
      assert Values(six)[i] <= lo + 5;
    }
    NoAceBelow(six);
    CombinationsSound(six, 5);
    forall h | h in Combinations(six, 5) ensures HandRank(h) <= 8 {
      SubseqMembers(h, six);
      NoAceNotRoyal(h);
    }
  }

  lemma HighFiveIsCombination<T>(six: seq<T>)
    requires |six| == 6
    ensures six[1..] in Combinations(six, 5)
  {
    SubseqRefl(six[1..]);
    SubseqOfTail(six[1..], six, 1);
    CombinationsComplete(six, 5, six[1..]);
  }

  lemma HighFiveKeyedHigher(six: seq<Card>, lo: int)
    requires HeartsRun(six, lo)
    ensures Tiebreaker(six[..5], 8) < Tiebreaker(six[1..], 8)
  {
    LowFiveOfRun(six, lo);
    HighFiveOfRun(six, lo);
    ValuesTiebreak(six[..5], 8);
    ValuesTiebreak(six[1..], 8);
    KeyFirstDigit([lo + 4, lo + 3, lo + 2, lo + 1, lo], [lo + 5, lo + 4, lo + 3, lo + 2, lo + 1]);
  }

  /** When the first entry already holds the highest rank, above 0, the
      scan keeps it. */
  lemma FirstOfHighest(rs: seq<int>)
    requires |rs| > 0 && rs[0] > 0 && forall j :: 0 <= j < |rs| ==> rs[j] <= rs[0]
    ensures BestIndex(rs) == Some(0)
  {
    BestIndexSpec(rs);
  }

  lemma FirstOfHighestHand(combos: seq<seq<Card>>)
    requires |combos| > 0 && HandRank(combos[0]) > 0
    requires forall h :: h in combos ==> HandRank(h) <= HandRank(combos[0])
    ensures BestByRank(combos) == Some(combos[0])
  {
    var rs := HandRanks(combos);
    forall j | 0 <= j < |rs| ensures rs[j] <= rs[0] {
      assert combos[j] in combos;
    }
    FirstOfHighest(rs);
  }

  /** Given six hearts in a run below the ace, findBestHand keeps the first
      straight flush it meets, the low five, although the high five are
      also among the combinations, rank the same and have the higher
      tiebreak key: the scan never compares tiebreaks. */
  lemma FindBestHandIgnoresTiebreak(six: seq<Card>, lo: int)
    requires HeartsRun(six, lo)
    ensures BestByRank(Combinations(six, 5)) == Some(six[..5])
    ensures six[1..] in Combinations(six, 5)
    ensures HandRank(six[1..]) == HandRank(six[..5])
    ensures Tiebreaker(six[..5], 8) < Tiebreaker(six[1..], 8)
  {
    LowFiveOfRun(six, lo);
    HighFiveOfRun(six, lo);
    FirstCombination(six, 5);
    RunCombosRanks(six, lo);
    FirstOfHighestHand(Combinations(six, 5));
    HighFiveIsCombination(six);
    HighFiveKeyedHigher(six, lo);
  }

  /** Eight to king of hearts. */
  const SixHearts: seq<Card> := [
    Card(Hearts, Eight, 8), Card(Hearts, Nine, 9), Card(Hearts, Ten, 10),
    Card(Hearts, Jack, 11), Card(Hearts, Queen, 12), Card(Hearts, King, 13)]

  /** Eight to king of hearts: findBestHand answers with eight to queen. */
  lemma SixHeartsIgnoresTiebreak()
    ensures BestByRank(Combinations(SixHearts, 5)) == Some(SixHearts[..5])
    ensures HandRank(SixHearts[1..]) == HandRank(SixHearts[..5])
    ensures Tiebreaker(SixHearts[..5], 8) < Tiebreaker(SixHearts[1..], 8)
  {
    assert Values(SixHearts) == [8, 9, 10, 11, 12, 13];
    FindBestHandIgnoresTiebreak(SixHearts, 8);
  }

  // ---------------------------------------------------------------------
  // Seven cards of which no five make even a pair

  /** Cards with no rank repeated, only even values and no suit five times:
      no five of them pair, make a straight or a flush. */
  predicate Spread(cards: seq<Card>) {
    && (forall i, j :: 0 <= i < j < |cards| ==> cards[i].rank != cards[j].rank)
    && (forall i :: 0 <= i < |cards| ==> Values(cards)[i] % 2 == 0)
    && (forall s: Suit :: OfSuit(cards, s) < 5)
  }

  /** Number of cards of suit s. */
  function OfSuit(cards: seq<Card>, s: Suit): nat {
    CountWhere(cards, (c: Card) => c.suit == s)
  }

  lemma {:induction false} CountOfIsCountWhere(hand: seq<Card>, r: Rank)
    ensures CountOf(hand, r) == CountWhere(hand, (c: Card) => c.rank == r)
  {
    if hand != [] {
      CountOfIsCountWhere(hand[1..], r);
      assert Ranks(hand) == [hand[0].rank] + Ranks(hand[1..]);
    }
  }

  /** Cards whose ranks never repeat leave every count at 1. */
  lemma SingleCounts(hand: seq<Card>)
    requires forall r :: CountOf(hand, r) <= 1
    ensures 2 !in Counts(hand) && 3 !in Counts(hand) && 4 !in Counts(hand)
    ensures !IsFourOfAKind(hand) && !IsThreeOfAKind(hand) && !IsPair(hand) && !IsTwoPair(hand)
  {
    CountsHas(hand, 2);
    CountsHas(hand, 3);
    CountsHas(hand, 4);
  }

  /** All of a flush's cards carry the suit of its first card. */
  lemma FlushSameSuit(hand: seq<Card>)
    requires IsFlush(hand) && hand != []
    ensures forall i :: 0 <= i < |hand| ==> hand[i].suit == hand[0].suit
  {
    var s := Suits(hand);
    assert hand[0].suit in s;
    assert |s - {hand[0].suit}| == 0;
    forall i | 0 <= i < |hand| ensures hand[i].suit == hand[0].suit {
      assert hand[i].suit in s;
    }
  }

  /** Sorted values that are all even never pass the straight test: no two
      even numbers differ by 1, and the wheel holds 3. */
  lemma EvenNotStraight(hand: seq<Card>)
    requires forall c :: c in hand ==> RankValue(c.rank) % 2 == 0
    ensures !IsStraight(hand)
  {
    var vs := Values(hand);
    var v := SortAscending(vs);
    forall k | 0 <= k < |v| ensures v[k] % 2 == 0 {
      assert v[k] in multiset(vs);
      var i :| 0 <= i < |vs| && vs[i] == v[k];
      assert hand[i] in hand;
    }
    EvenNotStraightShape(v);
  }

  lemma EvenNotStraightShape(v: seq<int>)
    requires forall k :: 0 <= k < |v| ==> v[k] % 2 == 0
    ensures !StraightShape(v)
  {
    if |v| >= 5 {
      assert v[1] - v[0] != 1;
      assert v[..5][1] == v[1];
      assert Wheel[1] == 3;
    }
  }

  /** No five of a spread of cards hold any category. */
  lemma SpreadFiveHighCard(cards: seq<Card>, h: seq<Card>)
    requires Spread(cards) && |h| == 5 && IsSubseq(h, cards)
    ensures HandRank(h) == 0
  {
    forall r ensures CountOf(h, r) <= 1 {
      var p := (c: Card) => c.rank == r;
      CountOfIsCountWhere(h, r);
      CountOfIsCountWhere(cards, r);
      SubseqCount(h, cards, p);
      DistinctRanksCount(cards, r);
    }
    SingleCounts(h);
    SubseqMembers(h, cards);
    forall c | c in h ensures RankValue(c.rank) % 2 == 0 {
      var i :| 0 <= i < |cards| && cards[i] == c;
      assert Values(cards)[i] % 2 == 0;
    }
    EvenNotStraight(h);
    assert OfSuit(cards, h[0].suit) < 5;
    if IsFlush(h) {
      var p := (c: Card) => c.suit == h[0].suit;
      FlushSameSuit(h);
      CountAll(h, p);
      SubseqCount(h, cards, p);
      assert false;
    }
  }

  /** Cards whose ranks are pairwise different hold at most one of each. */
  lemma DistinctRanksCount(cards: seq<Card>, r: Rank)
    requires forall i, j :: 0 <= i < j < |cards| ==> cards[i].rank != cards[j].rank
    ensures CountWhere(cards, (c: Card) => c.rank == r) <= 1
  {
    CountOfIsCountWhere(cards, r);
    DistinctMultiplicity(Ranks(cards), r);
  }

  /** findBestHand finds no hand among five or more spread cards, although
      there are combinations to choose from: every one of them ranks 0 and
      none beats the starting rank 0. */
  lemma SpreadFindsNothing(cards: seq<Card>)
    requires Spread(cards) && |cards| >= 5
    ensures |Combinations(cards, 5)| > 0
    ensures BestByRank(Combinations(cards, 5)) == None
  {
    var combos := Combinations(cards, 5);
    FirstCombination(cards, 5);
    CombinationsSound(cards, 5);
    var rs := HandRanks(combos);
    forall j | 0 <= j < |rs| ensures rs[j] <= 0 {
      assert combos[j] in combos;
      SpreadFiveHighCard(cards, combos[j]);
    }
    BestIndexSpec(rs);
  }

  /** Two, four, six and eight of hearts, diamonds, clubs and spades in
      turn, then ten of hearts, queen of diamonds and ace of clubs. */
  const NoCategorySeven: seq<Card> := [
    Card(Hearts, Two, 2), Card(Diamonds, Four, 4), Card(Clubs, Six, 6),
    Card(Spades, Eight, 8), Card(Hearts, Ten, 10), Card(Diamonds, Queen, 12),
    Card(Clubs, Ace, 14)]

  /** Seven showdown cards on which findBestHand answers null. */
  lemma SevenCardsFindNothing()
    ensures |Combinations(NoCategorySeven, 5)| == 21
    ensures BestByRank(Combinations(NoCategorySeven, 5)) == None
  {
    NoCategorySpread(NoCategorySeven);
    SevenChooseFive(NoCategorySeven);
    SpreadFindsNothing(NoCategorySeven);
  }

  lemma NoCategorySpread(cards: seq<Card>)
    requires cards == NoCategorySeven
    ensures |cards| == 7 && Spread(cards)
  {
    var vs := Values(cards);
    NoCategoryValues(cards);
    NoCategorySuits();
    forall i | 0 <= i < 7 ensures vs[i] % 2 == 0 {
      EvenSeven(vs, i);
    }
    forall i, j | 0 <= i < j < 7 ensures cards[i].rank != cards[j].rank {
      RisingPairs(vs, i, j);
    }
  }

  lemma NoCategoryValues(cards: seq<Card>)
    requires cards == NoCategorySeven
    ensures Values(cards) == [2, 4, 6, 8, 10, 12, 14]
  {
    var vs := Values(cards);
    assert vs[0] == 2 && vs[1] == 4 && vs[2] == 6 && vs[3] == 8;
    assert vs[4] == 10 && vs[5] == 12 && vs[6] == 14;
  }

  lemma EvenSeven(vs: seq<int>, i: int)
    requires vs == [2, 4, 6, 8, 10, 12, 14] && 0 <= i < 7
    ensures vs[i] % 2 == 0
  {
  }

  lemma NoCategorySuits()
    ensures forall s: Suit :: OfSuit(NoCategorySeven, s) < 5
  {
    forall s: Suit ensures OfSuit(NoCategorySeven, s) < 5 {
      assert OfSuit(NoCategorySeven, s) <= 2;
    }
  }

  /** Values rising at every step rise between any two positions. */
  lemma {:induction false} RisingPairs(v: seq<int>, i: int, j: int)
    requires forall k :: 0 <= k < |v| - 1 ==> v[k] < v[k + 1]
    requires 0 <= i < j < |v|
    ensures v[i] < v[j]
    decreases j - i
  {
    if j > i + 1 {
      RisingPairs(v, i, j - 1);
    }
  }


  // ---------------------------------------------------------------------
  // The wheel, keyed ace high

  /** The five cards of a straight all differ in rank. */
  lemma StraightRanksDiffer(hand: seq<Card>)
    requires |hand| == 5 && IsStraight(hand)
    ensures forall r :: CountOf(hand, r) <= 1
  {
    forall i, j | 0 <= i < j < 5 ensures hand[i].rank != hand[j].rank {
      if hand[i].rank == hand[j].rank {
        PairedNotStraight(hand, i, j);
      }
    }
    forall r ensures CountOf(hand, r) <= 1 {
      DistinctMultiplicity(Ranks(hand), r);
    }
  }

  /** A straight that is not a flush ranks 4. */
  lemma PlainStraightRank(hand: seq<Card>)
    requires |hand| == 5 && IsStraight(hand) && !IsFlush(hand)
    ensures HandRank(hand) == 4
  {
    StraightRanksDiffer(hand);
    SingleCounts(hand);
    var cs := SortDescending(Counts(hand));
    if |cs| > 0 {
      assert cs[0] in multiset(Counts(hand));
    }
    assert !IsFullHouse(hand);
  }

  lemma WheelDescending(hand: seq<Card>)
    requires IsWheel(hand)
    ensures IsStraight(hand)
    ensures SortDescending(Values(hand)) == [14, 5, 4, 3, 2]
  {
    WheelShape();
    ReverseFive(Wheel);
  }

  /** getTiebreaker keys the wheel by its values from high to low, ace
      first, so A-2-3-4-5 gets a higher key than 2-3-4-5-6 of the same
      category although it is the lower straight. */
  lemma WheelKeyedAceHigh(w: seq<Card>, h: seq<Card>, rank: int)
    requires IsWheel(w) && SortAscending(Values(h)) == Run(2)
    requires rank == 4 || rank == 8
    ensures IsStraight(w) && IsStraight(h)
    ensures Tiebreaker(h, rank) < Tiebreaker(w, rank)
  {
    WheelDescending(w);
    RunAscending(2);
    DescendingOfSorted(Values(h), Run(2));
    ReverseFive(Run(2));
    ValuesTiebreak(w, rank);
    ValuesTiebreak(h, rank);
    assert TiebreakDigits(h, rank) == [6, 5, 4, 3, 2];
    assert TiebreakDigits(w, rank) == [14, 5, 4, 3, 2];
    AceFirstKeyedHigher();
  }

  lemma DescendingOfSorted(xs: seq<int>, v: seq<int>)
    requires SortAscending(xs) == v
    ensures SortDescending(xs) == Reverse(v)
  {
  }

  lemma AceFirstKeyedHigher()
    ensures Key([6, 5, 4, 3, 2]) < Key([14, 5, 4, 3, 2])
  {
    KeyFirstDigit([6, 5, 4, 3, 2], [14, 5, 4, 3, 2]);
  }

  /** Ace of spades, two of hearts, three of diamonds, four of clubs, five
      of spades. */
  const WheelStraight: seq<Card> := [
    Card(Spades, Ace, 14), Card(Hearts, Two, 2), Card(Diamonds, Three, 3),
    Card(Clubs, Four, 4), Card(Spades, Five, 5)]

  /** Two of hearts, three of diamonds, four of clubs, five of spades, six of
      hearts. */
  const SixHighStraight: seq<Card> := [
    Card(Hearts, Two, 2), Card(Diamonds, Three, 3), Card(Clubs, Four, 4),
    Card(Spades, Five, 5), Card(Hearts, Six, 6)]

  /** A wheel and a six-high straight, neither a flush, both rank 4, and
      the showdown puts the wheel above the six-high straight. */
  lemma WheelOutranksSixHigh(w: seq<Card>, h: seq<Card>)
    requires |w| == 5 && IsWheel(w) && !IsFlush(w)
    requires |h| == 5 && SortAscending(Values(h)) == Run(2) && !IsFlush(h)
    ensures HandRank(w) == 4 && HandRank(h) == 4
    ensures Tiebreaker(h, 4) < Tiebreaker(w, 4)
  {
    WheelKeyedAceHigh(w, h, 4);
    PlainStraightRank(w);
    PlainStraightRank(h);
  }

  lemma WheelBeatsSixHigh()
    ensures HandRank(WheelStraight) == 4 && HandRank(SixHighStraight) == 4
    ensures Tiebreaker(SixHighStraight, 4) < Tiebreaker(WheelStraight, 4)
  {
    WheelStraightFacts(WheelStraight);
    SixHighFacts(SixHighStraight);
    WheelOutranksSixHigh(WheelStraight, SixHighStraight);
  }

  lemma WheelStraightFacts(w: seq<Card>)
    requires w == WheelStraight
    ensures |w| == 5 && IsWheel(w) && !IsFlush(w)
  {
    TwoSuitsNotFlush(w);
    var vs := Values(w);
    assert vs == [14, 2, 3, 4, 5] by {
      assert vs[0] == 14 && vs[1] == 2 && vs[2] == 3 && vs[3] == 4 && vs[4] == 5;
    }
    SortsToWheel(vs);
  }

  lemma SixHighFacts(h: seq<Card>)
    requires h == SixHighStraight
    ensures |h| == 5 && SortAscending(Values(h)) == Run(2) && !IsFlush(h)
  {
    TwoSuitsNotFlush(h);
    var vs := Values(h);
    assert vs == Run(2) by {
      assert vs[0] == 2 && vs[1] == 3 && vs[2] == 4 && vs[3] == 5 && vs[4] == 6;
    }
    RunAscending(2);
    SortOfSorted(vs);
  }

  lemma SortsToWheel(xs: seq<int>)
    requires xs == [14, 2, 3, 4, 5]
    ensures SortAscending(xs) == Wheel
  {
    assert multiset(xs) == multiset(Wheel);
    WheelShape();
    SortedUnique(SortAscending(xs), Wheel);
  }

  /** A hand whose first two cards differ in suit is no flush. */
  lemma TwoSuitsNotFlush(hand: seq<Card>)
    requires |hand| >= 2 && hand[0].suit != hand[1].suit
    ensures !IsFlush(hand)
  {
    var t := Suits(hand) - {hand[0].suit};
    assert hand[0].suit in Suits(hand) && hand[1].suit in t;
    assert |Suits(hand)| == |t| + 1;
  }

  /** With the ace counted low in the wheel, every other straight of the
      same category keys above it. */
  lemma WheelLowestStraight(w: seq<Card>, h: seq<Card>, rank: int)
    requires IsWheel(w) && |h| == 5 && IsStraight(h) && !IsWheel(h)
    requires rank == 4 || rank == 8
    ensures FixedTiebreaker(w, rank) < FixedTiebreaker(h, rank)
  {
    var lo := NonWheelRun(h);
    StraightKeyDigits(h, lo, rank);
    WheelKeyBelow(lo);
  }

  /** A straight other than the wheel is a run of five starting at 2 to 10. */
  lemma NonWheelRun(h: seq<Card>) returns (lo: int)
    requires |h| == 5 && IsStraight(h) && !IsWheel(h)
    ensures SortAscending(Values(h)) == Run(lo) && 2 <= lo <= 10
  {
    var v := SortAscending(Values(h));
    ShapeIsRun(v);
    lo := v[0];
    assert v[0] in multiset(Values(h));
    assert v[4] in multiset(Values(h));
  }

  lemma StraightKeyDigits(h: seq<Card>, lo: int, rank: int)
    requires SortAscending(Values(h)) == Run(lo) && !IsWheel(h)
    requires rank == 4 || rank == 8
    ensures FixedTiebreakDigits(h, rank) == [lo + 4, lo + 3, lo + 2, lo + 1, lo]
  {
    DescendingOfSorted(Values(h), Run(lo));
    ReverseFive(Run(lo));
    ValuesTiebreak(h, rank);
    FixedKeepsOthers(h, rank);
  }

  lemma WheelKeyBelow(lo: int)
    requires 2 <= lo <= 10
    ensures Key([5, 4, 3, 2, 1]) < Key([lo + 4, lo + 3, lo + 2, lo + 1, lo])
  {
    var a, b := [5, 4, 3, 2, 1], [lo + 4, lo + 3, lo + 2, lo + 1, lo];
    assert forall i :: 0 <= i < 5 ==> 0 <= a[i] < 100 && 0 <= b[i] < 100;
    KeyFirstDigit(a, b);
  }
}
