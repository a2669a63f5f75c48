/** The single-player table of poker-game.js: the human in seat 0 and seven
    bots, eight fixed seats whose chips, cards and bets the game's methods
    update in place, and the showdown that pays the best hands. */
module PokerGame {
  import opened Wrappers
  import opened Cards
  import opened Table
  import opened Subsets
  import opened HandEvaluator

  const Seats := 8
  const StartingChips := 1500
  const SmallBlind := 25
  const BigBlind := 50
  const SeatNames: seq<string> := ["You", "Alice", "Bob", "Charlie", "Diana", "Eve", "Frank", "Grace"]

  /** Seat i as initializePlayers sets it up; the id is the seat number. */
  function InitialSeat(i: nat): Seat
    requires i < Seats
  {
    Seat([(('0' as int) + i) as char], SeatNames[i], StartingChips, [], i == 0, false, false,
         true, false, 0, false, false, i)
  }

  /** The street that completing a betting round leads to; after the river
      the showdown leaves the phase as it is. */
  function After(p: Phase): Phase {
    match p
    case Preflop => Flop
    case Flop => Turn
    case Turn => River
    case _ => p
  }

  /** The switch of playerAction on seat 0, from the table ps, pot and
      bet before to r, pot' and bet' after. A check with a bet owed is a
      call of what is owed, or of the whole stack if that is less; a raise
      is capped at the stack plus the seat's bet, is never refused and
      makes every other seat in play act again; an all-in does that only
      when it exceeds the table's bet. A call, or any other action string,
      changes nothing. */
  predicate HumanActed(ps: seq<Seat>, pot: int, bet: int, action: Action, amount: int,
                       r: seq<Seat>, pot': int, bet': int)
    requires |ps| > 0
  {
    var p := ps[0];
    match action
    case Check =>
      var owed := bet - p.currentBet;
      var paid := if owed == 0 then 0 else Min(owed, p.chips);
      && bet' == bet && pot' == pot + paid
      && r == ps[0 := if owed == 0 then p.(hasActed := true) else Pay(p, paid)]
    case Raise =>
      var target := Min(amount, p.chips + p.currentBet);
      && bet' == target && pot' == pot + (target - p.currentBet)
      && ReopenedFrom(ps[0 := Pay(p, target - p.currentBet)], r, 0)
    case Fold =>
      r == ps[0 := p.(isFolded := true, hasActed := true)] && pot' == pot && bet' == bet
    case AllIn =>
      var all := p.chips + p.currentBet;
      && pot' == pot + p.chips
      && (all > bet ==> bet' == all && ReopenedFrom(ps[0 := Pay(p, p.chips)], r, 0))
      && (all <= bet ==> bet' == bet && r == ps[0 := Pay(p, p.chips)])
    case _ =>
      r == ps && pot' == pot && bet' == bet
  }

  // ---------------------------------------------------------------------
  // Showdown scores

  /** A hand's place in the showdown order: its rank, then its tiebreak
      key within the rank. */
  datatype Score = Score(rank: int, key: int)

  /** The score of an item under a pair of scoring functions: the
      showdown scores a hand by HandRank, then HandKey. */
  function ScoreOf<T>(x: T, major: T -> int, minor: T -> int): Score {
    Score(major(x), minor(x))
  }

  predicate Higher(a: Score, b: Score) {
    a.rank > b.rank || (a.rank == b.rank && a.key > b.key)
  }

  function Larger(a: Score, b: Score): (m: Score)
    ensures m == a || m == b
    ensures !Higher(a, m) && !Higher(b, m)
  {
    if Higher(b, a) then b else a
  }

  /** The highest score among the items. */
  function MaxScore<T>(items: seq<T>, major: T -> int, minor: T -> int): Score
    requires items != []
  {
    if |items| == 1 then ScoreOf(items[0], major, minor)
    else Larger(ScoreOf(items[0], major, minor), MaxScore(items[1..], major, minor))
  }

  /** The maximum is the score of one of the items, and no item scores
      higher. */
  lemma {:induction false} MaxScoreSpec<T>(items: seq<T>, major: T -> int, minor: T -> int)
    requires items != []
    ensures exists i :: 0 <= i < |items| && ScoreOf(items[i], major, minor) == MaxScore(items, major, minor)
    ensures forall i :: 0 <= i < |items| ==> !Higher(ScoreOf(items[i], major, minor), MaxScore(items, major, minor))
  {
    if |items| > 1 {
      var rest := items[1..];
      MaxScoreSpec(rest, major, minor);
      var k :| 0 <= k < |rest| && ScoreOf(rest[k], major, minor) == MaxScore(rest, major, minor);
      assert MaxScore(items, major, minor) == Larger(ScoreOf(items[0], major, minor), MaxScore(rest, major, minor));
      if MaxScore(items, major, minor) == ScoreOf(items[0], major, minor) {
        assert ScoreOf(items[0], major, minor) == MaxScore(items, major, minor);
      } else {
        assert rest[k] == items[k + 1];
        assert ScoreOf(items[k + 1], major, minor) == MaxScore(items, major, minor);
      }
      forall i | 0 <= i < |items|
        ensures !Higher(ScoreOf(items[i], major, minor), MaxScore(items, major, minor))
      {
        if i > 0 {
          assert items[i] == rest[i - 1];
        }
      }
    } else {
      assert ScoreOf(items[0], major, minor) == MaxScore(items, major, minor);
    }
  }

  /** An item that no other item is above scores exactly the maximum: the
      two scores order items totally, so all unbeaten items tie. */
  lemma UnbeatenScoresMax<T>(items: seq<T>, x: T, major: T -> int, minor: T -> int)
    requires x in items && forall y :: y in items ==> !Above(y, x, major, minor)
    ensures ScoreOf(x, major, minor) == MaxScore(items, major, minor)
  {
    MaxScoreSpec(items, major, minor);
    var i :| 0 <= i < |items| && ScoreOf(items[i], major, minor) == MaxScore(items, major, minor);
    var j :| 0 <= j < |items| && items[j] == x;
    assert !Above(items[i], x, major, minor);
    assert !Higher(ScoreOf(items[j], major, minor), MaxScore(items, major, minor));
  }

  /** The highest score among the five-element combinations. */
  function BestScore<T>(cards: seq<T>, major: seq<T> -> int, minor: seq<T> -> int): Score
    requires |cards| >= 5
  {
    FirstCombination(cards, 5);
    MaxScore(Combinations(cards, 5), major, minor)
  }

  /** The score of the best five of the given cards: rank, then tiebreak
      key. */
  function HandScore(cards: seq<Card>): Score
    requires |cards| >= 5
  {
    BestScore(cards, HandRank, HandKey)
  }

  /** The best score among the seats that have not folded; none when all
      have folded. */
  function TopScore(ps: seq<Seat>, scores: seq<Score>): (t: Option<Score>)
    requires |scores| == |ps|
  {
    if ps == [] then None
    else
      var n := |ps| - 1;
      var t := TopScore(ps[..n], scores[..n]);
      if ps[n].isFolded then t
      else if t.None? then Some(scores[n])
      else Some(Larger(t.value, scores[n]))
  }

  /** The top score belongs to a seat that has not folded, and no such seat
      scores higher; there is none exactly when every seat has folded. */
  lemma {:induction false} TopScoreSpec(ps: seq<Seat>, scores: seq<Score>)
    requires |scores| == |ps|
    ensures TopScore(ps, scores).None? <==> forall j :: 0 <= j < |ps| ==> ps[j].isFolded
    ensures TopScore(ps, scores).Some? ==>
      && (exists j :: 0 <= j < |ps| && !ps[j].isFolded && scores[j] == TopScore(ps, scores).value)
      && forall j :: 0 <= j < |ps| && !ps[j].isFolded ==> !Higher(scores[j], TopScore(ps, scores).value)
  {
    if ps != [] {
      var n := |ps| - 1;
      TopScoreSpec(ps[..n], scores[..n]);
      var t := TopScore(ps[..n], scores[..n]);
      assert forall j :: 0 <= j < n ==> ps[..n][j] == ps[j] && scores[..n][j] == scores[j];
      if !ps[n].isFolded && t.Some? {
        var k :| 0 <= k < n && !ps[..n][k].isFolded && scores[..n][k] == t.value;
        assert !ps[k].isFolded && scores[k] == t.value;
      }
    }
  }

  /** The seats, in seat order, that have not folded and hold the top
      score. */
  function Winners(ps: seq<Seat>, scores: seq<Score>, top: Score): (w: seq<nat>)
    requires |scores| == |ps|
  {
    if ps == [] then []
    else
      var n := |ps| - 1;
      Winners(ps[..n], scores[..n], top) + (if !ps[n].isFolded && scores[n] == top then [n] else [])
  }

  /** A seat wins exactly when it has not folded and ties the top score,
      and the winners are listed in increasing seat order, each once. */
  lemma {:induction false} WinnersSpec(ps: seq<Seat>, scores: seq<Score>, top: Score)
    requires |scores| == |ps|
    ensures forall j :: j in Winners(ps, scores, top) <==> 0 <= j < |ps| && !ps[j].isFolded && scores[j] == top
    ensures forall a, b :: 0 <= a < b < |Winners(ps, scores, top)| ==>
      Winners(ps, scores, top)[a] < Winners(ps, scores, top)[b]
  {
    if ps != [] {
      var n := |ps| - 1;
      WinnersSpec(ps[..n], scores[..n], top);
      assert forall j :: 0 <= j < n ==> ps[..n][j] == ps[j] && scores[..n][j] == scores[j];
      var w := Winners(ps[..n], scores[..n], top);
      forall a | 0 <= a < |w|
        ensures w[a] < n
      {
        assert w[a] in w;
      }
    }
  }

  /** What each winner receives: the whole pot for a single winner,
      otherwise the pot divided evenly and rounded down. */
  function Share(pot: int, winners: nat): int {
    if winners <= 1 then pot else pot / winners
  }

  /** The winners together never receive more than the pot, and what is
      left over is the pot modulo the number of winners. */
  lemma SplitLeavesRemainder(pot: int, winners: nat)
    requires winners >= 1
    ensures Share(pot, winners) * winners <= pot
    ensures pot - Share(pot, winners) * winners == pot % winners
    ensures winners == 1 ==> Share(pot, winners) * winners == pot
  {
    if winners > 1 {
      var q, r := pot / winners, pot % winners;
      assert pot == q * winners + r && 0 <= r < winners;
    }
  }

  // ---------------------------------------------------------------------
  // The game

  class Game {
    var players: seq<Seat>
    var deck: seq<Card>
    var communityCards: seq<Card>
    var pot: int
    var currentPlayer: nat
    var dealerPosition: nat
    var gamePhase: Phase
    var currentBet: int

    /** Eight seats, and the turn and the dealer button at one of them. */
    predicate Seated()
      reads this
    {
      |players| == Seats && currentPlayer < Seats && dealerPosition < Seats
    }

    /** During a hand: the community cards of the current street are on the
        table, and enough cards are left for the streets still to come. */
    predicate Valid()
      reads this
    {
      && Seated()
      && gamePhase in {Preflop, Flop, Turn, River}
      && |communityCards| == Revealed(gamePhase)
      && |deck| >= CardsStillNeeded(gamePhase)
    }

    /** The constructor followed by initializePlayers: eight seats of 1500
        chips, the human first. */
    constructor ()
      ensures Seated()
      ensures |players| == Seats && forall i :: 0 <= i < Seats ==> players[i] == InitialSeat(i)
      ensures players[0].isHuman && forall i :: 1 <= i < Seats ==> !players[i].isHuman
      ensures TotalChips(players) == Seats * StartingChips
      ensures deck == [] && communityCards == [] && pot == 0 && currentBet == 0
      ensures currentPlayer == 0 && dealerPosition == 0 && gamePhase == Preflop
    {
      deck := [];
      communityCards := [];
      pot := 0;
      currentPlayer := 0;
      dealerPosition := 0;
      gamePhase := Preflop;
      currentBet := 0;
      var ps: seq<Seat> := [];
      var i := 0;
      while i < Seats
        invariant 0 <= i <= Seats && |ps| == i
        invariant forall k :: 0 <= k < i ==> ps[k] == InitialSeat(k)
        invariant TotalChips(ps) == i * StartingChips
      {
        TotalChipsAppend(ps, InitialSeat(i));
        ps := ps + [InitialSeat(i)];
        i := i + 1;
      }
      players := ps;
    }

    /** startNewGame: the previous pot is dropped (the showdown already paid
        it out), the hands are cleared, a fresh deck is shuffled and the
        blinds are posted. */
    method StartNewGame()
      requires Seated()
      modifies this`players, this`deck, this`pot, this`communityCards, this`gamePhase,
               this`currentBet, this`currentPlayer
      ensures Valid() && gamePhase == Preflop && communityCards == []
      ensures |deck| == 52 && multiset(deck) == FullDeck()
      ensures forall j :: 0 <= j < Seats ==>
        && players[j].cards == [] && !players[j].isFolded && !players[j].isAllIn && !players[j].hasActed
        && players[j].isActive == old(players[j]).isActive
      ensures BlindsPaid(old(players), players, (dealerPosition + 1) % Seats, (dealerPosition + 2) % Seats,
                         SmallBlind, BigBlind)
      ensures pot == SmallBlind + BigBlind && currentBet == BigBlind
      ensures currentPlayer == (dealerPosition + 3) % Seats
      ensures TotalChips(players) + pot == old(TotalChips(players))
    {
      ResetTable();
      ghost var cleared := players;
      NewDeck();
      PostBlinds();
      ResetThenBlinds(old(players), cleared, players, (dealerPosition + 1) % Seats, (dealerPosition + 2) % Seats);
    }

    /** Seats reset and then charged their blinds hold no cards and no
        flags, and are active as before. */
    static lemma ResetThenBlinds(ps: seq<Seat>, cleared: seq<Seat>, posted: seq<Seat>, sb: nat, bb: nat)
      requires |ps| == |cleared| && sb < |ps| && bb < |ps|
      requires forall j :: 0 <= j < |ps| ==>
        cleared[j] == ps[j].(cards := [], currentBet := 0, hasActed := false, isAllIn := false, isFolded := false)
      requires posted == PostedBlinds(cleared, sb, bb, SmallBlind, BigBlind)
      ensures |posted| == |ps|
      ensures forall j :: 0 <= j < |ps| ==>
        && posted[j].cards == [] && !posted[j].isFolded && !posted[j].isAllIn && !posted[j].hasActed
        && posted[j].isActive == ps[j].isActive
      ensures BlindsPaid(ps, posted, sb, bb, SmallBlind, BigBlind)
    {
      PostedBlindsFields(cleared, sb, bb, SmallBlind, BigBlind);
      BlindsOnCleared(ps, cleared, sb, bb, SmallBlind, BigBlind);
    }

    /** The reset at the start of startNewGame. */
    method ResetTable()
      modifies this`players, this`pot, this`communityCards, this`gamePhase, this`currentBet
      ensures pot == 0 && communityCards == [] && gamePhase == Preflop && currentBet == 0
      ensures |players| == old(|players|)
      ensures forall j :: 0 <= j < |players| ==>
        players[j] == old(players[j]).(cards := [], currentBet := 0, hasActed := false, isAllIn := false, isFolded := false)
      ensures TotalChips(players) == old(TotalChips(players))
    {
      pot := 0;
      communityCards := [];
      gamePhase := Preflop;
      currentBet := 0;
      players := ResetHands(players);
    }

    /** createDeck, then shuffleDeck: the 52 cards in some order. */
    method NewDeck()
      modifies this`deck
      ensures multiset(deck) == FullDeck() && |deck| == 52
    {
      CreateDeck();
      ShuffleDeck();
    }

    /** createDeck: the 52 cards in suit-major order. */
    method CreateDeck()
      modifies this`deck
      ensures deck == SuitMajor(AllSuits, AllRanks, RankValue) && |deck| == 52
      ensures multiset(deck) == FullDeck()
    {
      deck := BuildDeck(AllSuits, AllRanks, RankValue);
      StandardDeck();
    }

    /** shuffleDeck: some permutation of the deck. */
    method ShuffleDeck()
      modifies this`deck
      ensures multiset(deck) == old(multiset(deck)) && |deck| == old(|deck|)
    {
      deck := FisherYates(deck);
    }

    /** postBlinds: the seats one and two after the dealer, counted round
        the eight seats, post 25 and 50 without any check of their stacks;
        the seat after the big blind is next to act. */
    method PostBlinds()
      requires |players| == Seats
      modifies this`players, this`pot, this`currentBet, this`currentPlayer
      ensures |players| == Seats
      ensures players == PostedBlinds(old(players), (dealerPosition + 1) % Seats, (dealerPosition + 2) % Seats,
                                      SmallBlind, BigBlind)
      ensures pot == old(pot) + SmallBlind + BigBlind && currentBet == BigBlind
      ensures currentPlayer == (dealerPosition + 3) % Seats
      ensures TotalChips(players) + pot == old(TotalChips(players) + pot)
      ensures forall j :: 0 <= j < Seats ==>
        players[j] == old(players[j]).(chips := players[j].chips, currentBet := players[j].currentBet)
    {
      var sb, bb := (dealerPosition + 1) % Seats, (dealerPosition + 2) % Seats;
      ghost var before := players;
      PostedBlindsTotal(players, sb, bb, SmallBlind, BigBlind);
      players := PostedBlinds(players, sb, bb, SmallBlind, BigBlind);
      PostedBlindsFields(before, sb, bb, SmallBlind, BigBlind);
      forall j | 0 <= j < Seats
        ensures players[j] == before[j].(chips := players[j].chips, currentBet := players[j].currentBet)
      {
      }
      pot := pot + SmallBlind + BigBlind;
      currentBet := BigBlind;
      ModNext(dealerPosition + 2, Seats);
      currentPlayer := (bb + 1) % Seats;
    }

    /** dealHoleCards: two passes over the seats, one card from the top of
        the deck per active seat per pass. */
    method DealHoleCards()
      requires Valid() && |deck| >= 2 * CountActive(players) + CardsStillNeeded(gamePhase)
      modifies this`players, this`deck
      ensures Valid()
      ensures deck == old(deck)[..old(|deck|) - 2 * CountActive(old(players))]
      ensures forall j :: 0 <= j < Seats ==> players[j] == DealtSeat(old(players), old(deck), j, 2)
      ensures forall j :: 0 <= j < Seats ==>
        |players[j].cards| == old(|players[j].cards|) + (if old(players[j]).isActive then 2 else 0)
      ensures Held(deck, players) == old(Held(deck, players))
      ensures TotalChips(players) == old(TotalChips(players))
    {
      var ps, rest := Table.DealHoleCards(players, deck);
      SameStacks(players, ps);
      players, deck := ps, rest;
    }

    /** startBettingRound: every seat in play has to act again, then the
        turn passes on. */
    method StartBettingRound()
      requires Valid()
      modifies this
      ensures Valid() && pot == old(pot)
      ensures TotalChips(players) == old(TotalChips(players))
      ensures CountInPlay(old(players)) >= 2 ==>
        && ReopenedFrom(old(players), players, -1)
        && deck == old(deck) && communityCards == old(communityCards)
        && gamePhase == old(gamePhase) && currentBet == old(currentBet)
        && InPlay(players[currentPlayer])
        && exists steps :: Skips(players, old(currentPlayer), Seats, steps)
                           && currentPlayer == Clockwise(old(currentPlayer), steps, Seats)
      ensures CountInPlay(old(players)) < 2 ==> gamePhase == After(old(gamePhase))
      ensures CountInPlay(old(players)) < 2 && old(gamePhase) != River ==>
        var k := Revealed(gamePhase) - Revealed(old(gamePhase));
        && deck == old(deck)[..old(|deck|) - k - 1]
        && communityCards == old(communityCards) + Drawn(old(deck), k)
        && currentBet == 0 && currentPlayer == dealerPosition
        && forall j :: 0 <= j < Seats ==>
             players[j] == if InPlay(old(players[j])) then old(players[j]).(hasActed := false, currentBet := 0)
                           else old(players[j]).(currentBet := 0)
    {
      var reopened := Reopen(players, -1);
      ReopenKeeps(players, reopened, -1);
      ReopenedRound(players, reopened, currentBet);
      players := reopened;
      NextPlayer();
    }

    /** nextPlayer: the do-while over the eight seats, then, if the betting
        round is complete, the next street; otherwise the seat reached,
        which is in play, is to act. */
    method NextPlayer()
      requires Valid()
      modifies this
      ensures Valid() && pot == old(pot)
      ensures TotalChips(players) == old(TotalChips(players))
      ensures RoundComplete(players, currentBet) <==> RoundComplete(old(players), old(currentBet))
      ensures !RoundComplete(old(players), old(currentBet)) ==>
        && players == old(players) && deck == old(deck) && communityCards == old(communityCards)
        && gamePhase == old(gamePhase) && currentBet == old(currentBet)
        && InPlay(players[currentPlayer])
        && exists steps :: Skips(players, old(currentPlayer), Seats, steps)
                           && currentPlayer == Clockwise(old(currentPlayer), steps, Seats)
      ensures RoundComplete(old(players), old(currentBet)) ==> gamePhase == After(old(gamePhase))
      ensures RoundComplete(old(players), old(currentBet)) && old(gamePhase) != River ==>
        var k := Revealed(gamePhase) - Revealed(old(gamePhase));
        && deck == old(deck)[..old(|deck|) - k - 1]
        && communityCards == old(communityCards) + Drawn(old(deck), k)
        && currentBet == 0 && currentPlayer == dealerPosition
        && forall j :: 0 <= j < Seats ==> players[j] == old(players[j]).(currentBet := 0)
      ensures RoundComplete(old(players), old(currentBet)) && old(gamePhase) == River ==>
        && players == old(players) && deck == old(deck) && communityCards == old(communityCards)
        && currentBet == old(currentBet)
    {
      var next, steps := NextSeat(players, currentPlayer, Seats);
      assert Skips(players, currentPlayer, Seats, steps);
      currentPlayer := next;
      if RoundComplete(players, currentBet) {
        ghost var before, bet := players, currentBet;
        CompleteBettingRound();
        if old(gamePhase) != River {
          ClearedStaysComplete(before, players, bet);
        }
      } else {
        assert CountInPlay(players) >= 2;
        assert exists s :: 0 <= s < |players| && InPlay(players[s]);
      }
    }

    /** completeBettingRound: the flop after the preflop round, the turn
        after the flop, the river after the turn; after the river the
        showdown, which changes nothing until determineWinner runs. */
    method CompleteBettingRound()
      requires Valid()
      modifies this`players, this`deck, this`communityCards, this`gamePhase, this`currentBet,
               this`currentPlayer
      ensures Valid()
      ensures gamePhase == After(old(gamePhase))
      ensures old(gamePhase) == River ==> unchanged(this)
      ensures old(gamePhase) != River ==>
        var k := Revealed(gamePhase) - Revealed(old(gamePhase));
        && PhasesLeft(gamePhase) == PhasesLeft(old(gamePhase)) - 1
        && deck == old(deck)[..old(|deck|) - k - 1]
        && communityCards == old(communityCards) + Drawn(old(deck), k)
        && currentBet == 0 && currentPlayer == dealerPosition
        && |players| == Seats && forall j :: 0 <= j < Seats ==> players[j] == old(players[j]).(currentBet := 0)
      ensures TotalChips(players) == old(TotalChips(players))
    {
      match gamePhase {
        case Preflop => DealStreet(Flop, 3);
        case Flop => DealStreet(Turn, 1);
        case Turn => DealStreet(River, 1);
        case River =>
      }
    }

    /** dealFlop, dealTurn and dealRiver: the phase is set, the table's and
        every seat's bet go back to zero, the dealer's seat is current, one
        card is burnt and k are revealed. Whether seats must act again is
        left to startBettingRound. */
    method DealStreet(phase: Phase, k: nat)
      requires |deck| >= k + 1
      modifies this`players, this`deck, this`communityCards, this`gamePhase, this`currentBet,
               this`currentPlayer
      ensures gamePhase == phase && currentBet == 0 && currentPlayer == dealerPosition
      ensures deck == old(deck)[..old(|deck|) - k - 1]
      ensures communityCards == old(communityCards) + Drawn(old(deck), k)
      ensures |players| == old(|players|)
      ensures forall j :: 0 <= j < |players| ==> players[j] == old(players[j]).(currentBet := 0)
      ensures TotalChips(players) == old(TotalChips(players))
    {
      gamePhase := phase;
      currentBet := 0;
      currentPlayer := dealerPosition;
      var cleared := ClearBets(players);
      SameStacks(players, cleared);
      players := cleared;
      deck, communityCards := BurnAndReveal(deck, communityCards, k);
    }

    /** playerAction for the human seat, followed by nextPlayer. */
    method PlayerAction(action: Action, amount: int)
      requires Valid()
      modifies this
      ensures Valid()
      ensures TotalChips(players) + pot == old(TotalChips(players) + pot)
      ensures !RoundComplete(players, currentBet) ==>
        && HumanActed(old(players), old(pot), old(currentBet), action, amount, players, pot, currentBet)
        && deck == old(deck) && communityCards == old(communityCards) && gamePhase == old(gamePhase)
        && InPlay(players[currentPlayer])
        && exists steps :: Skips(players, old(currentPlayer), Seats, steps)
                           && currentPlayer == Clockwise(old(currentPlayer), steps, Seats)
      ensures RoundComplete(players, currentBet) ==> gamePhase == After(old(gamePhase))
      ensures RoundComplete(players, currentBet) && old(gamePhase) == River ==>
        && HumanActed(old(players), old(pot), old(currentBet), action, amount, players, pot, currentBet)
        && deck == old(deck) && communityCards == old(communityCards)
      ensures RoundComplete(players, currentBet) && old(gamePhase) != River ==>
        && (var k := Revealed(gamePhase) - Revealed(old(gamePhase));
            && deck == old(deck)[..old(|deck|) - k - 1]
            && communityCards == old(communityCards) + Drawn(old(deck), k))
        && currentBet == 0 && currentPlayer == dealerPosition
        && exists acted: seq<Seat>, bet: int ::
             && HumanActed(old(players), old(pot), old(currentBet), action, amount, acted, pot, bet)
             && |acted| == Seats && forall j :: 0 <= j < Seats ==> players[j] == acted[j].(currentBet := 0)
    {
      ApplyAction(action, amount);
      ghost var acted, bet := players, currentBet;
      NextPlayer();
      assert HumanActed(old(players), old(pot), old(currentBet), action, amount, acted, pot, bet);
    }

    /** The switch of playerAction on seat 0 (HumanActed); chips only move
        between seat 0's stack and the pot, and an all-in empties the
        stack into the seat's bet. */
    method ApplyAction(action: Action, amount: int)
      requires |players| == Seats
      modifies this`players, this`pot, this`currentBet
      ensures |players| == Seats
      ensures TotalChips(players) + pot == old(TotalChips(players) + pot)
      ensures HumanActed(old(players), old(pot), old(currentBet), action, amount, players, pot, currentBet)
      ensures action == AllIn ==>
        players[0] == old(players[0]).(chips := 0, currentBet := old(players[0].chips) + old(players[0].currentBet),
                                       isAllIn := true, hasActed := true)
    {
      var p := players[0];
      match action {
        case Check =>
          if currentBet == p.currentBet {
            players := players[0 := p.(hasActed := true)];
            SameStacks(old(players), players);
          } else {
            var paid := Min(currentBet - p.currentBet, p.chips);
            PayConserves(players, 0, paid, pot);
            players := players[0 := Pay(p, paid)];
            pot := pot + paid;
          }
        case Raise =>
          var target := Min(amount, p.chips + p.currentBet);
          var extra := target - p.currentBet;
          PayConserves(players, 0, extra, pot);
          var paid := players[0 := Pay(p, extra)];
          pot := pot + extra;
          currentBet := target;
          players := Reopen(paid, 0);
          ReopenKeeps(paid, players, 0);
        case Fold =>
          players := players[0 := p.(isFolded := true, hasActed := true)];
          SameStacks(old(players), players);
        case AllIn =>
          var all := p.chips + p.currentBet;
          PayConserves(players, 0, p.chips, pot);
          var paid := players[0 := Pay(p, p.chips)];
          pot := pot + p.chips;
          players := paid;
          if all > currentBet {
            currentBet := all;
            players := Reopen(paid, 0);
            ReopenKeeps(paid, players, 0);
          }
        case Call =>
        case Unknown =>
      }
    }

    /** determineWinner, its chip part: every seat that has not folded is
        scored by its best five of seven cards; the seats tied at the top
        score win; a single winner takes the pot, several share it evenly,
        rounded down. The pot is left as it is; the next hand drops it. */
    method DetermineWinner() returns (scores: seq<Score>, winners: seq<nat>)
      requires Valid() && gamePhase == River
      modifies this`players
      ensures |scores| == Seats && |players| == Seats
      ensures forall j :: 0 <= j < Seats && !old(players[j]).isFolded ==>
        scores[j] == HandScore(old(players[j]).cards + communityCards)
      ensures TopScore(old(players), scores).None? ==> winners == [] && players == old(players)
      ensures TopScore(old(players), scores).Some? ==>
        winners == Winners(old(players), scores, TopScore(old(players), scores).value) && |winners| >= 1
      ensures forall j :: 0 <= j < Seats ==> players[j] == old(players[j]).(chips := players[j].chips)
      ensures forall j :: 0 <= j < Seats ==>
        players[j].chips == old(players[j]).chips + (if j in winners then Share(pot, |winners|) else 0)
      ensures TotalChips(players) == old(TotalChips(players)) + Share(pot, |winners|) * |winners|
    {
      scores, winners := RankSeats(players, communityCards);
      if winners == [] {
        return;
      }
      PayWinners(winners, Share(pot, |winners|));
    }

    /** winners.forEach: each listed seat's stack grows by the share. */
    method PayWinners(winners: seq<nat>, share: int)
      requires |players| == Seats
      requires forall k :: 0 <= k < |winners| ==> winners[k] < Seats
      requires forall a, b :: 0 <= a < b < |winners| ==> winners[a] < winners[b]
      modifies this`players
      ensures |players| == Seats
      ensures forall j :: 0 <= j < Seats ==> players[j] == old(players[j]).(chips := players[j].chips)
      ensures forall j :: 0 <= j < Seats ==>
        players[j].chips == old(players[j]).chips + (if j in winners then share else 0)
      ensures TotalChips(players) == old(TotalChips(players)) + share * |winners|
    {
      var k := 0;
      while k < |winners|
        invariant 0 <= k <= |winners| && |players| == Seats
        invariant forall j :: 0 <= j < Seats ==> players[j] == old(players[j]).(chips := players[j].chips)
        invariant forall j :: 0 <= j < Seats ==>
          players[j].chips == old(players[j]).chips + (if j in winners[..k] then share else 0)
        invariant TotalChips(players) == old(TotalChips(players)) + share * k
      {
        var w := winners[k];
        assert w !in winners[..k];
        var paid := players[w].(chips := players[w].chips + share);
        TotalChipsUpdate(players, w, paid);
        players := players[w := paid];
        assert winners[..k + 1] == winners[..k] + [w];
        assert share * (k + 1) == share * k + share;
        k := k + 1;
      }
      assert winners[..k] == winners;
    }
  }

  /** The scoring and the tie filter of determineWinner: the seats that
      have not folded are scored, and the winners are those tied at the
      top score, listed once each in seat order. */
  method RankSeats(ps: seq<Seat>, community: seq<Card>) returns (scores: seq<Score>, winners: seq<nat>)
    requires |community| >= 5
    ensures |scores| == |ps|
    ensures forall j :: 0 <= j < |ps| && !ps[j].isFolded ==> scores[j] == HandScore(ps[j].cards + community)
    ensures TopScore(ps, scores).None? ==> winners == []
    ensures TopScore(ps, scores).Some? ==>
      winners == Winners(ps, scores, TopScore(ps, scores).value) && |winners| >= 1
    ensures forall k :: 0 <= k < |winners| ==> winners[k] < |ps|
    ensures forall a, b :: 0 <= a < b < |winners| ==> winners[a] < winners[b]
  {
    scores := ScoreSeats(ps, community, HandRank, HandKey);
    var top := FindTop(ps, scores);
    TopScoreSpec(ps, scores);
    if top.None? {
      return scores, [];
    }
    winners := TiedWith(ps, scores, top.value);
    WinnersSpec(ps, scores, top.value);
    var w :| 0 <= w < |ps| && !ps[w].isFolded && scores[w] == top.value;
    assert w in winners;
    forall k | 0 <= k < |winners|
      ensures winners[k] < |ps|
    {
      assert winners[k] in winners;
    }
  }

  /** findBestHand, getHandRank and getTiebreaker for one seat: the score
      of its best five cards. */
  method ScoreHand<T>(cards: seq<T>, major: seq<T> -> int, minor: seq<T> -> int) returns (score: Score)
    requires |cards| >= 5
    ensures score == BestScore(cards, major, minor)
  {
    var hands := Combinations(cards, 5);
    FirstCombination(cards, 5);
    var best := ScanGreatest(hands, major, minor);
    UnbeatenScoresMax(hands, best.value, major, minor);
    score := ScoreOf(best.value, major, minor);
  }

  /** The playerHands map of determineWinner: a score for every seat that
      has not folded (a folded seat's entry is never looked at). */
  method ScoreSeats(ps: seq<Seat>, community: seq<Card>, major: seq<Card> -> int, minor: seq<Card> -> int)
    returns (scores: seq<Score>)
    requires |community| >= 5
    ensures |scores| == |ps|
    ensures forall j :: 0 <= j < |ps| && !ps[j].isFolded ==>
      scores[j] == BestScore(ps[j].cards + community, major, minor)
  {
    scores := [];
    var j := 0;
    while j < |ps|
      invariant 0 <= j <= |ps| && |scores| == j
      invariant forall k :: 0 <= k < j && !ps[k].isFolded ==>
        scores[k] == BestScore(ps[k].cards + community, major, minor)
    {
      var score := Score(0, 0);
      if !ps[j].isFolded {
        score := ScoreHand(ps[j].cards + community, major, minor);
      }
      scores := scores + [score];
      j := j + 1;
    }
  }

  /** The first entry once the scored seats are sorted highest first. */
  method FindTop(ps: seq<Seat>, scores: seq<Score>) returns (top: Option<Score>)
    requires |scores| == |ps|
    ensures top == TopScore(ps, scores)
  {
    top := None;
    var j := 0;
    while j < |ps|
      invariant 0 <= j <= |ps|
      invariant top == TopScore(ps[..j], scores[..j])
    {
      assert ps[..j + 1][..j] == ps[..j] && scores[..j + 1][..j] == scores[..j];
      if !ps[j].isFolded {
        top := if top.None? then Some(scores[j]) else Some(Larger(top.value, scores[j]));
      }
      j := j + 1;
    }
    assert ps[..j] == ps && scores[..j] == scores;
  }

  /** The filter of the scored seats tied with the top score. */
  method TiedWith(ps: seq<Seat>, scores: seq<Score>, top: Score) returns (winners: seq<nat>)
    requires |scores| == |ps|
    ensures winners == Winners(ps, scores, top)
  {
    winners := [];
    var j := 0;
    while j < |ps|
      invariant 0 <= j <= |ps|
      invariant winners == Winners(ps[..j], scores[..j], top)
    {
      assert ps[..j + 1][..j] == ps[..j] && scores[..j + 1][..j] == scores[..j];
      if !ps[j].isFolded && scores[j] == top {
        winners := winners + [j];
      }
      j := j + 1;
    }
    assert ps[..j] == ps && scores[..j] == scores;
  }
}
