/** Playing cards and the deck (src/entities/Card.js), together with the card
    constants every engine of the game shares: the four suits, the thirteen
    ranks and the value of each rank. */
module Cards {
  import opened Wrappers

  datatype Suit = Hearts | Diamonds | Clubs | Spades

  datatype Rank = Two | Three | Four | Five | Six | Seven | Eight | Nine | Ten
                | Jack | Queen | King | Ace

  /** The rank table: 2..10 are worth their number, J 11, Q 12, K 13, A 14. */
  function RankValue(r: Rank): (v: int)
    ensures 2 <= v <= 14
  {
    match r
    case Two => 2
    case Three => 3
    case Four => 4
    case Five => 5
    case Six => 6
    case Seven => 7
    case Eight => 8
    case Nine => 9
    case Ten => 10
    case Jack => 11
    case Queen => 12
    case King => 13
    case Ace => 14
  }

  /** The suit order of the configuration: hearts, diamonds, clubs, spades. */
  const AllSuits: seq<Suit> := [Hearts, Diamonds, Clubs, Spades]

  /** The rank order of the configuration: 2 up to A. */
  const AllRanks: seq<Rank> :=
    [Two, Three, Four, Five, Six, Seven, Eight, Nine, Ten, Jack, Queen, King, Ace]

  /** A card carries its suit, its rank and a numeric value that the deck
      builder fills in from a rank table. */
  datatype Card = Card(suit: Suit, rank: Rank, value: int)

  predicate Distinct<T(==)>(s: seq<T>) {
    forall i, j :: 0 <= i < j < |s| ==> s[i] != s[j]
  }

  // ---------------------------------------------------------------------
  // Card

  /** Two cards are equal when suit and rank agree; the value is not compared. */
  predicate Equals(c: Card, other: Card) {
    c.suit == other.suit && c.rank == other.rank
  }

  /** Equals is equality of cards once their values are forgotten. */
  lemma EqualsIgnoresValue(c: Card, other: Card)
    ensures Equals(c, other) <==> c.(value := 0) == other.(value := 0)
  {
  }

  predicate IsRed(c: Card) {
    c.suit == Hearts || c.suit == Diamonds
  }

  predicate IsBlack(c: Card) {
    c.suit == Clubs || c.suit == Spades
  }

  /** Every card of the four suits is either red or black, never both. */
  lemma RedBlackComplementary(c: Card)
    ensures IsRed(c) != IsBlack(c)
  {
  }

  /** The plain object a card serialises to: suit and rank by their names,
      and the value. A field the object lacks is None. */
  datatype CardJson = CardJson(suit: Option<string>, rank: Option<string>, value: Option<int>)

  function SuitName(s: Suit): string {
    match s
    case Hearts => "hearts"
    case Diamonds => "diamonds"
    case Clubs => "clubs"
    case Spades => "spades"
  }

  function RankName(r: Rank): string {
    match r
    case Two => "2"
    case Three => "3"
    case Four => "4"
    case Five => "5"
    case Six => "6"
    case Seven => "7"
    case Eight => "8"
    case Nine => "9"
    case Ten => "10"
    case Jack => "J"
    case Queen => "Q"
    case King => "K"
    case Ace => "A"
  }

  function ParseSuit(name: string): (s: Option<Suit>)
    ensures s.Some? ==> SuitName(s.value) == name
  {
    if name == "hearts" then Some(Hearts)
    else if name == "diamonds" then Some(Diamonds)
    else if name == "clubs" then Some(Clubs)
    else if name == "spades" then Some(Spades)
    else None
  }

  function ParseRank(name: string): (r: Option<Rank>)
    ensures r.Some? ==> RankName(r.value) == name
  {
    if name == "2" then Some(Two)
    else if name == "3" then Some(Three)
    else if name == "4" then Some(Four)
    else if name == "5" then Some(Five)
    else if name == "6" then Some(Six)
    else if name == "7" then Some(Seven)
    else if name == "8" then Some(Eight)
    else if name == "9" then Some(Nine)
    else if name == "10" then Some(Ten)
    else if name == "J" then Some(Jack)
    else if name == "Q" then Some(Queen)
    else if name == "K" then Some(King)
    else if name == "A" then Some(Ace)
    else None
  }

  function ToJson(c: Card): (j: CardJson)
    ensures j.suit == Some(SuitName(c.suit)) && j.rank == Some(RankName(c.rank))
    ensures j.value == Some(c.value)
  {
    CardJson(Some(SuitName(c.suit)), Some(RankName(c.rank)), Some(c.value))
  }

  /** Rebuilds a card from its plain object; an object whose suit or rank is
      missing or not one of the known names gives no card. */
  function FromJson(j: CardJson): (c: Option<Card>)
    ensures c.Some? ==> ToJson(c.value) == j
  {
    if j.suit.None? || j.rank.None? || j.value.None? then None
    else match (ParseSuit(j.suit.value), ParseRank(j.rank.value))
      case (Some(s), Some(r)) => Some(Card(s, r, j.value.value))
      case _ => None
  }

  /** Serialising and parsing a card gives back its suit, rank and value. */
  lemma JsonRoundTrip(c: Card)
    ensures FromJson(ToJson(c)) == Some(c)
  {
    match c.suit
    case Hearts =>
    case Diamonds =>
    case Clubs =>
    case Spades =>
  }

  // ---------------------------------------------------------------------
  // Deck contents

  /** The cards of one suit, in the order of `ranks`. */
  function SuitRow(s: Suit, ranks: seq<Rank>, rankValues: Rank -> int): seq<Card>
  {
    if ranks == [] then []
    else SuitRow(s, ranks[..|ranks| - 1], rankValues)
         + [Card(s, ranks[|ranks| - 1], rankValues(ranks[|ranks| - 1]))]
  }

  /** A fresh deck: every suit in turn, and within a suit every rank in turn. */
  function SuitMajor(suits: seq<Suit>, ranks: seq<Rank>, rankValues: Rank -> int): seq<Card>
  {
    if suits == [] then []
    else SuitMajor(suits[..|suits| - 1], ranks, rankValues)
         + SuitRow(suits[|suits| - 1], ranks, rankValues)
  }

  /** One card of every suit and every rank, each with the value the rank
      table gives it. */
  function CardsOf(suits: seq<Suit>, ranks: seq<Rank>, rankValues: Rank -> int): set<Card>
  {
    set s, r | s in suits && r in ranks :: Card(s, r, rankValues(r))
  }

  /** The cards of a full deck: each of the 52 suit and rank pairs once. */
  function FullDeck(): multiset<Card> {
    multiset(CardsOf(AllSuits, AllRanks, RankValue))
  }

  lemma {:induction false} SuitRowAt(s: Suit, ranks: seq<Rank>, rankValues: Rank -> int)
    ensures |SuitRow(s, ranks, rankValues)| == |ranks|
    ensures forall j :: 0 <= j < |ranks| ==>
      SuitRow(s, ranks, rankValues)[j] == Card(s, ranks[j], rankValues(ranks[j]))
  {
    if ranks != [] {
      SuitRowAt(s, ranks[..|ranks| - 1], rankValues);
    }
  }

  /** Card number i * |ranks| + j of a fresh deck is rank j of suit i, with
      the value the rank table gives it. */
  lemma {:induction false} SuitMajorAt(suits: seq<Suit>, ranks: seq<Rank>, rankValues: Rank -> int,
                                       i: nat, j: nat)
    requires i < |suits| && j < |ranks|
    ensures |SuitMajor(suits, ranks, rankValues)| == |suits| * |ranks|
    ensures SuitMajor(suits, ranks, rankValues)[i * |ranks| + j]
            == Card(suits[i], ranks[j], rankValues(ranks[j]))
  {
    var n, m := |suits| - 1, |ranks|;
    var front := SuitMajor(suits[..n], ranks, rankValues);
    var row := SuitRow(suits[n], ranks, rankValues);
    SuitRowAt(suits[n], ranks, rankValues);
    SuitMajorLength(suits, ranks, rankValues);
    SuitMajorLength(suits[..n], ranks, rankValues);
    assert SuitMajor(suits, ranks, rankValues) == front + row;
    if i < n {
      SuitMajorAt(suits[..n], ranks, rankValues, i, j);
      MulStep(i, n, m);
      assert i * m + j < |front|;
    } else {
      assert i * m + j == |front| + j;
    }
  }

  /** i * m + m <= n * m whenever i < n. */
  lemma MulStep(i: nat, n: nat, m: nat)
    requires i < n
    ensures i * m + m <= n * m
  {
    var k := n - (i + 1);
    assert n * m == (i + 1) * m + k * m;
  }

  lemma {:induction false} SuitMajorLength(suits: seq<Suit>, ranks: seq<Rank>, rankValues: Rank -> int)
    ensures |SuitMajor(suits, ranks, rankValues)| == |suits| * |ranks|
  {
    if suits != [] {
      var n := |suits| - 1;
      SuitMajorLength(suits[..n], ranks, rankValues);
      SuitRowAt(suits[n], ranks, rankValues);
      assert (n + 1) * |ranks| == n * |ranks| + |ranks|;
    }
  }

  lemma {:induction false} SuitRowDistinct(s: Suit, ranks: seq<Rank>, rankValues: Rank -> int)
    requires Distinct(ranks)
    ensures Distinct(SuitRow(s, ranks, rankValues))
    ensures forall c :: c in SuitRow(s, ranks, rankValues) ==> c.suit == s && c.rank in ranks
  {
    SuitRowAt(s, ranks, rankValues);
  }

  /** With distinct suits and distinct ranks no card occurs twice in a fresh
      deck, and every card in it has one of the given suits. */
  lemma {:induction false} SuitMajorDistinct(suits: seq<Suit>, ranks: seq<Rank>, rankValues: Rank -> int)
    requires Distinct(suits) && Distinct(ranks)
    ensures Distinct(SuitMajor(suits, ranks, rankValues))
    ensures forall c :: c in SuitMajor(suits, ranks, rankValues) ==> c.suit in suits
  {
    if suits != [] {
      var n := |suits| - 1;
      var front := SuitMajor(suits[..n], ranks, rankValues);
      var row := SuitRow(suits[n], ranks, rankValues);
      SuitMajorDistinct(suits[..n], ranks, rankValues);
      SuitRowDistinct(suits[n], ranks, rankValues);
      assert forall c :: c in front ==> c.suit != suits[n] by {
        forall c | c in front ensures c.suit != suits[n] {
          assert c.suit in suits[..n];
        }
      }
      var all := front + row;
      forall i, j | 0 <= i < j < |all| ensures all[i] != all[j] {
        if j < |front| {
        } else if i >= |front| {
          assert all[i] == row[i - |front|] && all[j] == row[j - |front|];
        } else {
          assert all[i] in front && all[j] in row;
        }
      }
    }
  }

  /** The standard fresh deck holds 52 distinct cards, and they are
      exactly the cards of a full deck. */
  lemma StandardDeck()
    ensures |SuitMajor(AllSuits, AllRanks, RankValue)| == 52
    ensures Distinct(SuitMajor(AllSuits, AllRanks, RankValue))
    ensures multiset(SuitMajor(AllSuits, AllRanks, RankValue)) == FullDeck()
  {
    SuitMajorLength(AllSuits, AllRanks, RankValue);
    AllRanksDistinct();
    SuitMajorDistinct(AllSuits, AllRanks, RankValue);
    SuitMajorCards(AllSuits, AllRanks, RankValue);
  }

  /** A card is in CardsOf exactly when its suit and rank are listed and its
      value is the one the table gives its rank. */
  lemma InCardsOf(suits: seq<Suit>, ranks: seq<Rank>, rankValues: Rank -> int, c: Card)
    ensures c in CardsOf(suits, ranks, rankValues)
            <==> c.suit in suits && c.rank in ranks && c.value == rankValues(c.rank)
  {
    if c.suit in suits && c.rank in ranks && c.value == rankValues(c.rank) {
      assert c == Card(c.suit, c.rank, rankValues(c.rank));
    }
  }

  /** A fresh deck holds a card exactly when CardsOf does. */
  lemma {:induction false} InSuitMajor(suits: seq<Suit>, ranks: seq<Rank>, rankValues: Rank -> int, c: Card)
    ensures c in SuitMajor(suits, ranks, rankValues) <==> c in CardsOf(suits, ranks, rankValues)
  {
    InCardsOf(suits, ranks, rankValues, c);
    if suits != [] {
      var n := |suits| - 1;
      var front := SuitMajor(suits[..n], ranks, rankValues);
      var row := SuitRow(suits[n], ranks, rankValues);
      assert SuitMajor(suits, ranks, rankValues) == front + row;
      InSuitMajor(suits[..n], ranks, rankValues, c);
      InCardsOf(suits[..n], ranks, rankValues, c);
      InSuitRow(suits[n], ranks, rankValues, c);
      assert c.suit in suits <==> c.suit in suits[..n] || c.suit == suits[n] by {
        assert suits == suits[..n] + [suits[n]];
      }
    }
  }

  /** A row holds a card exactly when it has the row's suit, a listed rank
      and the value of that rank. */
  lemma InSuitRow(s: Suit, ranks: seq<Rank>, rankValues: Rank -> int, c: Card)
    ensures c in SuitRow(s, ranks, rankValues)
            <==> c.suit == s && c.rank in ranks && c.value == rankValues(c.rank)
  {
    SuitRowAt(s, ranks, rankValues);
    if c.suit == s && c.rank in ranks && c.value == rankValues(c.rank) {
      var j :| 0 <= j < |ranks| && ranks[j] == c.rank;
      assert SuitRow(s, ranks, rankValues)[j] == c;
    }
  }

  /** With no suit and no rank listed twice, a fresh deck holds each card
      of CardsOf exactly once. */
  lemma SuitMajorCards(suits: seq<Suit>, ranks: seq<Rank>, rankValues: Rank -> int)
    requires Distinct(suits) && Distinct(ranks)
    ensures multiset(SuitMajor(suits, ranks, rankValues)) == multiset(CardsOf(suits, ranks, rankValues))
  {
    var deck := SuitMajor(suits, ranks, rankValues);
    SuitMajorDistinct(suits, ranks, rankValues);
    DistinctOnce(deck);
    forall c ensures c in deck <==> c in CardsOf(suits, ranks, rankValues) {
      InSuitMajor(suits, ranks, rankValues, c);
    }
    assert (set c | c in deck) == CardsOf(suits, ranks, rankValues);
  }

  /** A sequence without repeats holds each of its elements once. */
  lemma {:induction false} DistinctOnce<T>(t: seq<T>)
    requires Distinct(t)
    ensures multiset(t) == multiset(set x | x in t)
  {
    if t != [] {
      var n := |t| - 1;
      DistinctOnce(t[..n]);
      assert t == t[..n] + [t[n]];
      assert t[n] !in t[..n];
      assert (set x | x in t) == (set x | x in t[..n]) + {t[n]};
    }
  }

  /** The ranks in order carry the values 2 to 14, so none repeats. */
  lemma AllRanksDistinct()
    ensures Distinct(AllRanks)
  {
    forall i | 0 <= i < |AllRanks| ensures RankValue(AllRanks[i]) == i + 2 {
    }
  }

  // ---------------------------------------------------------------------
  // Building and shuffling a sequence of cards

  /** Pushes every rank of the first suit, then of the second, and so on. */
  method BuildDeck(suits: seq<Suit>, ranks: seq<Rank>, rankValues: Rank -> int)
    returns (cards: seq<Card>)
    ensures cards == SuitMajor(suits, ranks, rankValues)
  {
    cards := [];
    var i := 0;
    while i < |suits|
      invariant 0 <= i <= |suits|
      invariant cards == SuitMajor(suits[..i], ranks, rankValues)
    {
      var j := 0;
      while j < |ranks|
        invariant 0 <= j <= |ranks|
        invariant cards == SuitMajor(suits[..i], ranks, rankValues)
                           + SuitRow(suits[i], ranks[..j], rankValues)
      {
        assert ranks[..j + 1][..j] == ranks[..j];
        cards := cards + [Card(suits[i], ranks[j], rankValues(ranks[j]))];
        j := j + 1;
      }
      assert ranks[..j] == ranks;
      assert suits[..i + 1][..i] == suits[..i];
      i := i + 1;
    }
    assert suits[..i] == suits;
  }

  /** Fisher-Yates: walks down from the last position, swapping each one with
      a position at or below it chosen at random. Whatever the choices, the
      result is a permutation of the input. */
  method FisherYates<T>(s: seq<T>) returns (r: seq<T>)
    ensures multiset(r) == multiset(s) && |r| == |s|
  {
    r := s;
    var i := |r| - 1;
    while i > 0
      invariant i < |r|
      invariant multiset(r) == multiset(s) && |r| == |s|
    {
      var j :| 0 <= j <= i;
      r := r[i := r[j]][j := r[i]];
      i := i - 1;
    }
  }

  // ---------------------------------------------------------------------
  // Deck

  datatype DeckError = EmptyDeck

  /** A deck: the cards still to deal (the top is the last element) and the
      discard pile every dealt or burnt card goes to. */
  class Deck {
    var cards: seq<Card>
    var discardPile: seq<Card>

    constructor ()
      ensures cards == [] && discardPile == []
    {
      cards := [];
      discardPile := [];
    }

    /** Replaces the cards with a fresh suit-major deck; the discard pile is
        left as it was. */
    method Create(suits: seq<Suit>, ranks: seq<Rank>, rankValues: Rank -> int)
      modifies this`cards
      ensures cards == SuitMajor(suits, ranks, rankValues)
    {
      cards := BuildDeck(suits, ranks, rankValues);
    }

    /** Shuffles the cards still to deal into some permutation of themselves. */
    method Shuffle()
      modifies this`cards
      ensures multiset(cards) == old(multiset(cards)) && |cards| == old(|cards|)
    {
      cards := FisherYates(cards);
    }

    /** Takes the top card, puts it on the discard pile and returns it; on an
        empty deck fails and changes nothing. */
    method Deal() returns (r: Result<Card, DeckError>)
      modifies this`cards, this`discardPile
      ensures old(cards) == [] ==> r == Failure(EmptyDeck)
      ensures old(cards) == [] ==> cards == old(cards) && discardPile == old(discardPile)
      ensures old(cards) != [] ==>
        && r == Success(old(cards)[|old(cards)| - 1])
        && cards == old(cards)[..|old(cards)| - 1]
        && discardPile == old(discardPile) + [r.value]
      ensures |cards| + |discardPile| == old(|cards| + |discardPile|)
    {
      if |cards| == 0 {
        return Failure(EmptyDeck);
      }
      var card := cards[|cards| - 1];
      cards := cards[..|cards| - 1];
      discardPile := discardPile + [card];
      r := Success(card);
    }

    /** Burning is dealing a card that nobody sees. */
    method Burn() returns (r: Result<Card, DeckError>)
      modifies this`cards, this`discardPile
      ensures old(cards) == [] ==> r == Failure(EmptyDeck)
      ensures old(cards) == [] ==> cards == old(cards) && discardPile == old(discardPile)
      ensures old(cards) != [] ==>
        && r == Success(old(cards)[|old(cards)| - 1])
        && cards == old(cards)[..|old(cards)| - 1]
        && discardPile == old(discardPile) + [r.value]
      ensures |cards| + |discardPile| == old(|cards| + |discardPile|)
    {
      r := Deal();
    }

    /** Puts every discarded card back and shuffles: no card is lost. */
    method Reset()
      modifies this`cards, this`discardPile
      ensures multiset(cards) == old(multiset(cards) + multiset(discardPile))
      ensures discardPile == []
      ensures |cards| == old(|cards| + |discardPile|)
    {
      cards := cards + discardPile;
      discardPile := [];
      Shuffle();
    }

    function CardsRemaining(): nat
      reads this
    {
      |cards|
    }

    predicate IsEmpty()
      reads this
      ensures IsEmpty() <==> CardsRemaining() == 0
    {
      |cards| == 0
    }
  }
}
