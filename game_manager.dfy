/** The game manager of the modular client (src/managers/GameManager.js): it
    drives a hand over eight Player objects and one Deck object, changing
    them in place through their own methods and, for the per-round resets,
    by writing their fields directly. */
module Manager {
  import opened Wrappers
  import opened Cards
  import opened Table
  import Players

  // The poker settings of src/config/GameConfig.js.
  const MaxPlayers := 8
  const StartingChips := 10000
  const SmallBlind := 50
  const BigBlind := 100

  const PlayerNames: seq<string> := ["You", "Alice", "Bob", "Charlie", "Diana", "Eve", "Frank", "Grace"]

  const PlayerPositions: seq<Players.Point> := [
    Players.Point(640, 600), Players.Point(320, 520), Players.Point(200, 360), Players.Point(320, 200),
    Players.Point(640, 120), Players.Point(960, 200), Players.Point(1080, 360), Players.Point(960, 520)]

  /** The phase completeBettingRound moves to: flop, turn, river, then the
      showdown; its switch has no case for the other phases. */
  function NextPhase(p: Phase): Phase {
    match p
    case Preflop => Flop
    case Flop => Turn
    case Turn => River
    case River => Showdown
    case _ => p
  }

  /** A player seen as a seat record: what the betting rules read and write.
      The record's position holds the player's number; the screen
      coordinates and the running total bet are not part of it. */
  function SeatOf(p: Players.Player): Seat
    reads p`chips, p`cards, p`isHost, p`isActive, p`hasActed, p`currentBet, p`isAllIn, p`isFolded
  {
    Seat("", p.name, p.chips, p.cards, p.isHuman, p.isBot, p.isHost, p.isActive,
         p.hasActed, p.currentBet, p.isAllIn, p.isFolded, p.id)
  }

  function SeatsOf(ps: seq<Players.Player>): (r: seq<Seat>)
    reads ps`chips, ps`cards, ps`isHost, ps`isActive, ps`hasActed, ps`currentBet, ps`isAllIn, ps`isFolded
    ensures |r| == |ps| && forall i :: 0 <= i < |ps| ==> r[i] == SeatOf(ps[i])
  {
    if ps == [] then [] else [SeatOf(ps[0])] + SeatsOf(ps[1..])
  }

  /** Player i as initializePlayers leaves it: named and placed by its
      number, human only at seat 0, 10000 chips and nothing else. */
  predicate Newcomer(p: Players.Player, i: nat)
    reads p
  {
    && i < MaxPlayers && p.id == i && p.name == PlayerNames[i] && p.position == PlayerPositions[i]
    && p.isHuman == (i == 0) && p.isBot == (i != 0)
    && p.chips == StartingChips && p.cards == [] && p.currentBet == 0 && p.totalBet == 0
    && p.isActive && !p.hasActed && !p.isAllIn && !p.isFolded && !p.isHost
  }

  /** The active players among ps, counted from the back like
      Table.CountActive. */
  function ActiveOf(ps: seq<Players.Player>): (n: nat)
    reads ps`isActive
    ensures n <= |ps|
  {
    if ps == [] then 0 else ActiveOf(ps[..|ps| - 1]) + (if ps[|ps| - 1].isActive then 1 else 0)
  }

  /** The cards in the players' hands, as one multiset. */
  function HandsOf(ps: seq<Players.Player>): multiset<Card>
    reads ps`cards
  {
    if ps == [] then multiset{} else HandsOf(ps[..|ps| - 1]) + multiset(ps[|ps| - 1].cards)
  }

  /** Players and seat records with the same hands hold the same cards. */
  lemma {:induction false} HandsOfSame(ps: seq<Players.Player>, qs: seq<Seat>)
    requires |ps| == |qs| && forall i :: 0 <= i < |ps| ==> ps[i].cards == qs[i].cards
    ensures HandsOf(ps) == HoleCards(qs)
    decreases |ps|
  {
    if ps != [] {
      HandsOfSame(ps[..|ps| - 1], qs[..|qs| - 1]);
    }
  }

  /** Players with empty hands hold no cards. */
  lemma {:induction false} EmptyHands(ps: seq<Players.Player>)
    requires forall i :: 0 <= i < |ps| ==> ps[i].cards == []
    ensures HandsOf(ps) == multiset{}
    decreases |ps|
  {
    if ps != [] {
      EmptyHands(ps[..|ps| - 1]);
    }
  }

  /** Players and seat records that agree on who is active count alike. */
  lemma {:induction false} ActiveOfSeats(ps: seq<Players.Player>, qs: seq<Seat>)
    requires |ps| == |qs| && forall i :: 0 <= i < |ps| ==> ps[i].isActive == qs[i].isActive
    ensures ActiveOf(ps) == CountActive(qs)
    decreases |ps|
  {
    if ps != [] {
      ActiveOfSeats(ps[..|ps| - 1], qs[..|qs| - 1]);
    }
  }

  /** What player.reset leaves: no cards, no bets, no flags. */
  predicate Cleared(p: Players.Player)
    reads p
  {
    p.cards == [] && p.currentBet == 0 && p.totalBet == 0 && !p.hasActed && !p.isAllIn && !p.isFolded
  }

  /** The player paid the amount from the stack into the bet (Table.Pay on
      the player's fields), and the running total bet grew by as much. */
  twostate predicate Paid(p: Players.Player, amount: int)
    reads p`chips, p`currentBet, p`totalBet, p`hasActed, p`isAllIn, p`isFolded
  {
    && p.chips == old(p.chips) - amount && p.currentBet == old(p.currentBet) + amount
    && p.totalBet == old(p.totalBet) + amount && p.hasActed
    && p.isAllIn == (old(p.isAllIn) || p.chips == 0)
  }

  /** player.check: the player has acted; stack, bets and the other flags
      are as they were. */
  twostate predicate Checked(p: Players.Player)
    reads p`chips, p`currentBet, p`totalBet, p`hasActed, p`isAllIn, p`isFolded
  {
    && p.hasActed && p.chips == old(p.chips) && p.currentBet == old(p.currentBet)
    && p.totalBet == old(p.totalBet) && p.isAllIn == old(p.isAllIn) && p.isFolded == old(p.isFolded)
  }

  /** player.fold: folded and acted; stack and bets as they were. */
  twostate predicate FoldedNow(p: Players.Player)
    reads p`chips, p`currentBet, p`totalBet, p`hasActed, p`isAllIn, p`isFolded
  {
    && p.isFolded && p.hasActed && p.chips == old(p.chips) && p.currentBet == old(p.currentBet)
    && p.totalBet == old(p.totalBet) && p.isAllIn == old(p.isAllIn)
  }

  /** player.allIn: the whole stack went into the bet. */
  twostate predicate AllInPaid(p: Players.Player)
    reads p`chips, p`currentBet, p`totalBet, p`hasActed, p`isAllIn, p`isFolded
  {
    && p.chips == 0 && p.isAllIn && p.hasActed && p.isFolded == old(p.isFolded)
    && p.currentBet == old(p.currentBet) + old(p.chips) && p.totalBet == old(p.totalBet) + old(p.chips)
  }

  /** The betting fields of the player are as they were. */
  twostate predicate Untouched(p: Players.Player)
    reads p`chips, p`currentBet, p`totalBet, p`hasActed, p`isAllIn, p`isFolded
  {
    && p.chips == old(p.chips) && p.currentBet == old(p.currentBet) && p.totalBet == old(p.totalBet)
    && p.hasActed == old(p.hasActed) && p.isAllIn == old(p.isAllIn)
  }

  /** What an action costs a player with the given stack and own bet while
      the table's bet is tableBet: a check calls what is owed, or the whole
      stack if that is less; a raise pays up to its target, capped at the
      stack plus the own bet; an all-in pays the stack; anything else pays
      nothing. */
  function ActionCost(action: Action, amount: int, chips: int, ownBet: int, tableBet: int): int {
    match action
    case Check => if tableBet == ownBet then 0 else Min(tableBet - ownBet, chips)
    case Raise => Min(amount, chips + ownBet) - ownBet
    case AllIn => chips
    case _ => 0
  }

  /** The seat after seat i round the table, (i + 1) mod 8, written
      without the remainder. */
  function After(i: nat): nat
    requires i < MaxPlayers
  {
    if i + 1 == MaxPlayers then 0 else i + 1
  }

  lemma AfterIsNext(i: nat)
    requires i < MaxPlayers
    ensures After(i) == (i + 1) % MaxPlayers && After(i) < MaxPlayers
  {
  }

  /** The top n cards of a deck, in the order they are popped. */
  function Popped(cards: seq<Card>, n: nat): (r: seq<Card>)
    requires n <= |cards|
    ensures |r| == n && forall i :: 0 <= i < n ==> r[i] == cards[|cards| - 1 - i]
  {
    if n == 0 then [] else Popped(cards, n - 1) + [cards[|cards| - n]]
  }

  /** Neither folded nor all-in: a player who still has decisions to make. */
  predicate Live(p: Players.Player)
    reads p`isFolded, p`isAllIn
  {
    !p.isFolded && !p.isAllIn
  }

  /** The filter of isBettingRoundComplete: the live players, in seat order. */
  function LivePlayers(ps: seq<Players.Player>): (r: seq<Players.Player>)
    reads ps`isFolded, ps`isAllIn
    ensures |r| <= |ps|
    ensures forall i :: 0 <= i < |r| ==> r[i] in ps && Live(r[i])
    ensures forall i :: 0 <= i < |ps| && Live(ps[i]) ==> ps[i] in r
  {
    if ps == [] then [] else (if Live(ps[0]) then [ps[0]] else []) + LivePlayers(ps[1..])
  }

  /** The live players are as many as the seats in play of the table view. */
  lemma {:induction false} LivePlayersCount(ps: seq<Players.Player>, qs: seq<Seat>)
    requires |ps| == |qs| && forall i :: 0 <= i < |ps| ==> Live(ps[i]) == InPlay(qs[i])
    ensures |LivePlayers(ps)| == CountInPlay(qs)
    decreases |ps|
  {
    if ps != [] {
      LivePlayersCount(ps[1..], qs[1..]);
    }
  }

  /** The seat k steps clockwise from seat cur, one After at a time. */
  function Ahead(cur: nat, k: nat): (s: nat)
    requires cur < MaxPlayers
    ensures s < MaxPlayers
  {
    if k == 0 then cur else After(Ahead(cur, k - 1))
  }

  lemma {:induction false} AheadIsMod(cur: nat, k: nat)
    requires cur < MaxPlayers
    ensures Ahead(cur, k) == (cur + k) % MaxPlayers
  {
    if k > 0 {
      AheadIsMod(cur, k - 1);
      AfterIsNext(Ahead(cur, k - 1));
      assert (cur + k) % MaxPlayers == ((cur + k - 1) % MaxPlayers + 1) % MaxPlayers;
    }
  }

  /** The do-while of nextPlayer from its k-th step: move one seat on, and
      go on while that seat is not live and fewer than eight steps were
      taken. */
  function Scan(ps: seq<Players.Player>, cur: nat, k: nat): (s: nat)
    requires |ps| == MaxPlayers && cur < MaxPlayers && 1 <= k <= MaxPlayers
    reads ps`isFolded, ps`isAllIn
    ensures s < MaxPlayers
    decreases MaxPlayers - k
  {
    if !Live(ps[Ahead(cur, k)]) && k < MaxPlayers then Scan(ps, cur, k + 1) else Ahead(cur, k)
  }

  /** The scan takes between one and eight steps clockwise, every seat it
      passes over is folded or all-in, and it stops early only at a live
      seat. */
  lemma {:induction false} ScanSteps(ps: seq<Players.Player>, cur: nat, k: nat) returns (steps: nat)
    requires |ps| == MaxPlayers && cur < MaxPlayers && 1 <= k <= MaxPlayers
    ensures k <= steps <= MaxPlayers && Scan(ps, cur, k) == Ahead(cur, steps)
    ensures forall m :: k <= m < steps ==> !Live(ps[Ahead(cur, m)])
    ensures steps < MaxPlayers ==> Live(ps[Ahead(cur, steps)])
    decreases MaxPlayers - k
  {
    if !Live(ps[Ahead(cur, k)]) && k < MaxPlayers {
      steps := ScanSteps(ps, cur, k + 1);
    } else {
      steps := k;
    }
  }

  /** Fewer than eight steps round the table, counted without the
      remainder: past the last seat the count starts again at seat 0. */
  lemma {:induction false} AheadCount(cur: nat, k: nat)
    requires cur < MaxPlayers && k <= MaxPlayers
    ensures Ahead(cur, k) == if cur + k < MaxPlayers then cur + k else cur + k - MaxPlayers
  {
    if k > 0 {
      AheadCount(cur, k - 1);
    }
  }

  /** If any seat is live, the scan stops at a live seat: a full circle
      ends at the seat it started from. */
  lemma ScanFindsLive(ps: seq<Players.Player>, cur: nat, s: nat)
    requires |ps| == MaxPlayers && cur < MaxPlayers && s < MaxPlayers && Live(ps[s])
    ensures Live(ps[Scan(ps, cur, 1)])
  {
    var steps := ScanSteps(ps, cur, 1);
    if steps == MaxPlayers {
      var m := if s > cur then s - cur else s + MaxPlayers - cur;
      AheadCount(cur, m);
      AheadCount(cur, MaxPlayers);
    }
  }

  class GameManager {
    var players: seq<Players.Player>
    const deck: Deck
    var communityCards: seq<Card>
    var pot: int
    var currentPlayer: nat
    var dealerPosition: nat
    var gamePhase: Phase
    var currentBet: int
    var gamesPlayed: nat
    var gamesWon: nat
    var isGameActive: bool
    var isPaused: bool

    /** Eight players, each at the seat its number names (so no player
        sits twice), and the turn and the dealer button at one of them. */
    predicate Seated()
      reads this`players, this`currentPlayer, this`dealerPosition
    {
      |players| == MaxPlayers && (forall i :: 0 <= i < MaxPlayers ==> players[i].id == i)
      && currentPlayer < MaxPlayers && dealerPosition < MaxPlayers
    }

    /** Every card of a full deck is either still in the deck or in a
        player's hand, and no other card is anywhere. */
    predicate Accounted()
      reads this`players, deck`cards, players`cards
    {
      multiset(deck.cards) + HandsOf(players) == FullDeck()
    }

    /** The game is active exactly once a hand has begun; the community
        cards of the current street are on the table and the deck holds
        what the streets still to come will burn and reveal. */
    predicate Valid()
      reads this`players, this`currentPlayer, this`dealerPosition, this`isGameActive, this`gamePhase,
            this`communityCards, deck`cards
    {
      && Seated()
      && (isGameActive <==> gamePhase != Waiting)
      && |communityCards| == Revealed(gamePhase)
      && |deck.cards| >= CardsStillNeeded(gamePhase)
    }

    /** The players as seat records. */
    function Seats(): (r: seq<Seat>)
      reads this`players, players`chips, players`cards, players`isHost, players`isActive, players`hasActed, players`currentBet, players`isAllIn, players`isFolded
      ensures |r| == |players| && forall i :: 0 <= i < |players| ==> r[i] == SeatOf(players[i])
    {
      SeatsOf(players)
    }

    constructor ()
      ensures players == [] && fresh(deck) && deck.cards == [] && deck.discardPile == []
      ensures communityCards == [] && pot == 0 && currentPlayer == 0 && dealerPosition == 0
      ensures gamePhase == Waiting && currentBet == 0 && gamesPlayed == 0 && gamesWon == 0
      ensures !isGameActive && !isPaused
    {
      players := [];
      deck := new Deck();
      communityCards := [];
      pot := 0;
      currentPlayer := 0;
      dealerPosition := 0;
      gamePhase := Waiting;
      currentBet := 0;
      gamesPlayed := 0;
      gamesWon := 0;
      isGameActive := false;
      isPaused := false;
    }

    /** initializePlayers: eight new players of 10000 chips, the first one
        human, each at its own place round the table. */
    method InitializePlayers()
      modifies this`players
      ensures |players| == MaxPlayers
      ensures forall i :: 0 <= i < MaxPlayers ==> fresh(players[i]) && Newcomer(players[i], i)
    {
      var ps: seq<Players.Player> := [];
      var i := 0;
      while i < MaxPlayers
        invariant 0 <= i <= MaxPlayers && |ps| == i
        invariant forall k :: 0 <= k < i ==> fresh(ps[k]) && Newcomer(ps[k], k)
      {
        var p := NewPlayer(i);
        ps := ps + [p];
        i := i + 1;
      }
      players := ps;
    }

    /** One step of initializePlayers: player i, given its starting chips. */
    static method NewPlayer(i: nat) returns (p: Players.Player)
      requires i < MaxPlayers
      ensures fresh(p) && Newcomer(p, i)
    {
      p := new Players.Player(i, PlayerNames[i], PlayerPositions[i], i == 0);
      p.chips := StartingChips;
    }

    /** startNewGame: the game becomes active and unpaused, the pot of the
        last hand is dropped (determineWinner already paid it out), every
        player is reset, a fresh 52-card deck is shuffled, the blinds are
        posted and every active player is dealt two cards. The betting
        round that follows on a timer is StartBettingRound. */
    method StartNewGame()
      requires Seated()
      modifies this`isGameActive, this`isPaused, this`pot, this`communityCards, this`gamePhase,
               this`currentBet, this`currentPlayer, deck`cards, deck`discardPile,
               players`cards, players`chips, players`currentBet, players`totalBet, players`hasActed,
               players`isAllIn, players`isFolded
      ensures Valid() && isGameActive && !isPaused && gamePhase == Preflop && communityCards == []
      ensures |deck.cards| == 52 - 2 * ActiveOf(players) && Accounted()
      ensures forall j :: 0 <= j < MaxPlayers ==>
        && !players[j].isFolded && |players[j].cards| == (if players[j].isActive then 2 else 0)
      ensures var sb, bb := After(dealerPosition), After(After(dealerPosition));
        var small, big := Min(SmallBlind, old(players[sb].chips)), Min(BigBlind, old(players[bb].chips));
        && players[sb].chips == old(players[sb].chips) - small && players[sb].currentBet == small
        && players[bb].chips == old(players[bb].chips) - big && players[bb].currentBet == big
        && pot == small + big
        && forall j :: 0 <= j < MaxPlayers && j != sb && j != bb ==>
             players[j].chips == old(players[j].chips) && players[j].currentBet == 0
      ensures currentBet == BigBlind && currentPlayer == After(After(After(dealerPosition)))
    {
      BeginHand();
      DealFresh();
    }

    /** The deal of startNewGame from a full deck and empty hands: every
        card of the deck is afterwards either still in it or in a hand. */
    method DealFresh()
      requires Seated() && |deck.cards| == 52 && multiset(deck.cards) == FullDeck()
      requires forall j :: 0 <= j < MaxPlayers ==> players[j].cards == []
      modifies players`cards, deck`cards, deck`discardPile
      ensures |deck.cards| == 52 - 2 * ActiveOf(players) && Accounted()
      ensures forall j :: 0 <= j < MaxPlayers ==> |players[j].cards| == (if players[j].isActive then 2 else 0)
    {
      EmptyHands(players);
      DealHoleCards();
    }

    /** startNewGame up to the deal: the flags, the reset, the deck and the
        blinds. */
    method BeginHand()
      requires Seated()
      modifies this`isGameActive, this`isPaused, this`pot, this`communityCards, this`gamePhase,
               this`currentBet, this`currentPlayer, deck`cards,
               players`cards, players`chips, players`currentBet, players`totalBet, players`hasActed,
               players`isAllIn, players`isFolded
      ensures Seated() && isGameActive && !isPaused && gamePhase == Preflop && communityCards == []
      ensures |deck.cards| == 52 && multiset(deck.cards) == FullDeck()
      ensures forall j :: 0 <= j < MaxPlayers ==> players[j].cards == [] && !players[j].isFolded
      ensures var sb, bb := After(dealerPosition), After(After(dealerPosition));
        var small, big := Min(SmallBlind, old(players[sb].chips)), Min(BigBlind, old(players[bb].chips));
        && players[sb].chips == old(players[sb].chips) - small && players[sb].currentBet == small
        && players[bb].chips == old(players[bb].chips) - big && players[bb].currentBet == big
        && pot == small + big
        && forall j :: 0 <= j < MaxPlayers && j != sb && j != bb ==>
             players[j].chips == old(players[j].chips) && players[j].currentBet == 0
      ensures currentBet == BigBlind && currentPlayer == After(After(After(dealerPosition)))
    {
      Open();
      Prepare();
    }

    /** The reset, the deck and the blinds of startNewGame, after the pot
        was emptied. */
    method Prepare()
      requires Seated() && pot == 0
      modifies this`pot, this`currentBet, this`currentPlayer, deck`cards,
               players`cards, players`chips, players`currentBet, players`totalBet, players`hasActed,
               players`isAllIn, players`isFolded
      ensures Seated()
      ensures |deck.cards| == 52 && multiset(deck.cards) == FullDeck()
      ensures forall j :: 0 <= j < MaxPlayers ==> players[j].cards == [] && !players[j].isFolded
      ensures var sb, bb := After(dealerPosition), After(After(dealerPosition));
        var small, big := Min(SmallBlind, old(players[sb].chips)), Min(BigBlind, old(players[bb].chips));
        && players[sb].chips == old(players[sb].chips) - small && players[sb].currentBet == small
        && players[bb].chips == old(players[bb].chips) - big && players[bb].currentBet == big
        && pot == small + big
        && forall j :: 0 <= j < MaxPlayers && j != sb && j != bb ==>
             players[j].chips == old(players[j].chips) && players[j].currentBet == 0
      ensures currentBet == BigBlind && currentPlayer == After(After(After(dealerPosition)))
    {
      ResetPlayers();
      NewDeck();
      PostBlinds();
    }

    /** The flags and counters startNewGame sets before touching the players. */
    method Open()
      modifies this`isGameActive, this`isPaused, this`pot, this`communityCards, this`gamePhase, this`currentBet
      ensures isGameActive && !isPaused && pot == 0 && communityCards == [] && gamePhase == Preflop && currentBet == 0
    {
      isGameActive := true;
      isPaused := false;
      pot := 0;
      communityCards := [];
      gamePhase := Preflop;
      currentBet := 0;
    }

    /** The deck step of startNewGame: create the 52 cards, then shuffle. */
    method NewDeck()
      modifies deck`cards
      ensures |deck.cards| == 52 && multiset(deck.cards) == FullDeck()
    {
      deck.Create(AllSuits, AllRanks, RankValue);
      StandardDeck();
      deck.Shuffle();
    }

    /** The forEach of player.reset(): no cards, bets or flags; the chips
        stay. */
    method ResetPlayers()
      requires Seated()
      modifies players`cards, players`currentBet, players`totalBet, players`hasActed,
               players`isAllIn, players`isFolded
      ensures forall j :: 0 <= j < MaxPlayers ==> Cleared(players[j])
    {
      var i := 0;
      while i < MaxPlayers
        invariant 0 <= i <= MaxPlayers
        invariant forall j :: 0 <= j < i ==> Cleared(players[j])
      {
        players[i].Reset();
        i := i + 1;
      }
    }

    /** postBlinds: the seats one and two after the dealer bet the small and
        the big blind through player.bet, so a short stack posts only what
        it has, and the pot grows by exactly what was posted; the table's
        bet is the big blind and the seat after it is to act. */
    method PostBlinds()
      requires Seated()
      modifies players`chips, players`currentBet, players`totalBet, players`hasActed, players`isAllIn,
               this`pot, this`currentBet, this`currentPlayer
      ensures Seated()
      ensures var sb, bb := After(dealerPosition), After(After(dealerPosition));
        var small, big := Min(SmallBlind, old(players[sb].chips)), Min(BigBlind, old(players[bb].chips));
        && Paid(players[sb], small) && Paid(players[bb], big)
        && pot == old(pot) + small + big
      ensures forall j :: (0 <= j < MaxPlayers && j != After(dealerPosition) && j != After(After(dealerPosition)))
                          ==> Untouched(players[j])
      ensures currentBet == BigBlind && currentPlayer == After(After(After(dealerPosition)))
    {
      var sb, bb := After(dealerPosition), After(After(dealerPosition));
      assert players[sb].id != players[bb].id;
      PostBlind(sb, SmallBlind);
      PostBlind(bb, BigBlind);
      currentBet := BigBlind;
      currentPlayer := After(bb);
    }

    /** One blind of postBlinds: seat i bets the amount and the pot takes
        what the seat actually paid. */
    method PostBlind(i: nat, amount: int)
      requires Seated() && i < MaxPlayers
      modifies {players[i]}`chips, {players[i]}`currentBet, {players[i]}`totalBet, {players[i]}`hasActed,
               {players[i]}`isAllIn, this`pot
      ensures Paid(players[i], Min(amount, old(players[i].chips)))
      ensures pot == old(pot) + Min(amount, old(players[i].chips))
    {
      var paid := players[i].Bet(amount);
      pot := pot + paid;
    }

    /** dealHoleCards: two passes over the seats, each active player taking
        the top card of the deck on each pass; every card dealt goes to the
        discard pile as well. */
    method DealHoleCards()
      requires Seated() && |deck.cards| >= 2 * ActiveOf(players)
      modifies players`cards, deck`cards, deck`discardPile
      ensures deck.cards == old(deck.cards)[..old(|deck.cards|) - 2 * ActiveOf(players)]
      ensures deck.discardPile == old(deck.discardPile) + Popped(old(deck.cards), 2 * ActiveOf(players))
      ensures forall j :: 0 <= j < MaxPlayers ==>
        |players[j].cards| == |old(players[j].cards)| + (if players[j].isActive then 2 else 0)
      ensures multiset(deck.cards) + HandsOf(players) == old(multiset(deck.cards) + HandsOf(players))
    {
      ghost var ps, cards := Seats(), deck.cards;
      ActiveOfSeats(players, ps);
      HandsOfSame(players, ps);
      DealHands(ps);
      forall j | 0 <= j < MaxPlayers
        ensures |players[j].cards| == |old(players[j].cards)| + (if players[j].isActive then 2 else 0)
      {
        assert ps[j].cards == old(players[j].cards);
      }
      DealConserves(ps, cards);
    }

    /** The deal as dealHoleCards leaves it loses no card and makes none up:
        the deck and the hands hold what the deck and the seats held before. */
    lemma DealConserves(ps: seq<Seat>, cards: seq<Card>)
      requires |ps| == |players| && |cards| >= 2 * CountActive(ps)
      requires deck.cards == cards[..|cards| - 2 * CountActive(ps)]
      requires forall j :: 0 <= j < |ps| ==> players[j].cards == DealtSeat(ps, cards, j, 2).cards
      ensures multiset(deck.cards) + HandsOf(players) == multiset(cards) + HoleCards(ps)
    {
      var dealt := seq(|ps|, j requires 0 <= j < |ps| => DealtSeat(ps, cards, j, 2));
      var rest := cards[..|cards| - 2 * CountActive(ps)];
      DealKeepsCards(ps, cards, dealt);
      assert Held(rest, dealt) == Held(cards, ps);
      assert forall i :: 0 <= i < |ps| ==> players[i].cards == dealt[i].cards;
      HandsOfSame(players, dealt);
    }

    /** The two passes of dealHoleCards over the seats as they were. */
    method DealHands(ghost ps: seq<Seat>)
      requires Seated() && |ps| == MaxPlayers && |deck.cards| >= 2 * CountActive(ps)
      requires forall k :: 0 <= k < MaxPlayers ==>
        ps[k].isActive == players[k].isActive && ps[k].cards == players[k].cards
      modifies players`cards, deck`cards, deck`discardPile
      ensures deck.cards == old(deck.cards)[..old(|deck.cards|) - 2 * CountActive(ps)]
      ensures deck.discardPile == old(deck.discardPile) + Popped(old(deck.cards), 2 * CountActive(ps))
      ensures forall j :: 0 <= j < MaxPlayers ==> players[j].cards == DealtSeat(ps, old(deck.cards), j, 2).cards
    {
      assert ps[..0] == [];
      DealPass(ps, old(deck.cards), old(deck.discardPile), 0);
      DealPass(ps, old(deck.cards), old(deck.discardPile), 1);
    }

    /** One pass of dealHoleCards: each active player in seat order takes
        the top card. */
    method DealPass(ghost ps: seq<Seat>, ghost cards: seq<Card>, ghost discarded: seq<Card>, pass: nat)
      requires Seated() && pass < 2 && |ps| == MaxPlayers && |cards| >= 2 * CountActive(ps)
      requires forall k :: 0 <= k < MaxPlayers ==>
        ps[k].isActive == players[k].isActive && players[k].cards == DealtSeat(ps, cards, k, pass).cards
      requires deck.cards == cards[..|cards| - Dealt(ps, pass, 0)]
      requires deck.discardPile == discarded + Popped(cards, Dealt(ps, pass, 0))
      modifies players`cards, deck`cards, deck`discardPile
      ensures deck.cards == cards[..|cards| - (if pass == 0 then 1 else 2) * CountActive(ps)]
      ensures deck.discardPile == discarded + Popped(cards, (if pass == 0 then 1 else 2) * CountActive(ps))
      ensures forall k :: 0 <= k < MaxPlayers ==> players[k].cards == DealtSeat(ps, cards, k, pass + 1).cards
    {
      var j := 0;
      while j < MaxPlayers
        invariant 0 <= j <= MaxPlayers
        invariant deck.cards == cards[..|cards| - Dealt(ps, pass, j)]
        invariant deck.discardPile == discarded + Popped(cards, Dealt(ps, pass, j))
        invariant forall k :: 0 <= k < MaxPlayers ==>
          players[k].cards == DealtSeat(ps, cards, k, if k < j then pass + 1 else pass).cards
      {
        DealTo(ps, cards, discarded, pass, j);
        j := j + 1;
      }
      assert ps[..j] == ps;
    }

    /** The step of a pass at seat j: an active player takes the top card. */
    method DealTo(ghost ps: seq<Seat>, ghost cards: seq<Card>, ghost discarded: seq<Card>, pass: nat, j: nat)
      requires Seated() && pass < 2 && j < MaxPlayers && |ps| == MaxPlayers && |cards| >= 2 * CountActive(ps)
      requires ps[j].isActive == players[j].isActive && players[j].cards == DealtSeat(ps, cards, j, pass).cards
      requires deck.cards == cards[..|cards| - Dealt(ps, pass, j)]
      requires deck.discardPile == discarded + Popped(cards, Dealt(ps, pass, j))
      modifies {players[j]}`cards, deck`cards, deck`discardPile
      ensures deck.cards == cards[..|cards| - Dealt(ps, pass, j + 1)]
      ensures deck.discardPile == discarded + Popped(cards, Dealt(ps, pass, j + 1))
      ensures players[j].cards == DealtSeat(ps, cards, j, pass + 1).cards
      ensures forall k :: 0 <= k < MaxPlayers && k != j ==> players[k].cards == old(players[k].cards)
    {
      CountActiveStep(ps, j);
      CountActivePrefix(ps, j + 1);
      CountActivePrefix(ps, j);
      DealtSeatNext(ps, cards, j, pass);
      if players[j].isActive {
        var c := DrawTop(cards, discarded, Dealt(ps, pass, j));
        players[j].AddCard(c);
      }
      forall k | 0 <= k < MaxPlayers && k != j
        ensures players[k].cards == old(players[k].cards)
      {
        assert players[k].id != players[j].id;
      }
    }

    // -------------------------------------------------------------------
    // Betting rounds and turns

    /** isBettingRoundComplete: with at most one live player the round is
        over; otherwise it is over once every live player has acted and
        matched the table's bet. */
    function IsBettingRoundComplete(): (r: bool)
      reads this`players, this`currentBet, players`isFolded, players`isAllIn, players`hasActed, players`currentBet
      ensures |LivePlayers(players)| <= 1 ==> r
      ensures forall i :: (0 <= i < |players| && Live(players[i]) && |LivePlayers(players)| >= 2
                           && (!players[i].hasActed || players[i].currentBet != currentBet)) ==> !r
    {
      var live := LivePlayers(players);
      |live| <= 1 || ((forall p | p in live :: p.hasActed) && (forall p | p in live :: p.currentBet == currentBet))
    }

    /** The manager ends a betting round exactly when the table rule shared
        with the other two engines does. */
    lemma RoundCompleteAgrees()
      requires |players| == MaxPlayers
      ensures IsBettingRoundComplete() == RoundComplete(Seats(), currentBet)
    {
      var ps := Seats();
      LivePlayersCount(players, ps);
      var live := LivePlayers(players);
      if |live| >= 2 {
        if IsBettingRoundComplete() {
          forall i | 0 <= i < |ps| && InPlay(ps[i])
            ensures ps[i].hasActed && ps[i].currentBet == currentBet
          {
            assert players[i] in live;
          }
        } else {
          var p :| p in live && !(p.hasActed && p.currentBet == currentBet);
          var k :| 0 <= k < |live| && live[k] == p;
          var i :| 0 <= i < |players| && players[i] == p;
          assert InPlay(ps[i]);
        }
      }
    }

    /** The forEach that clears hasActed for every live player except the
        one at seat actor (every live player when actor is -1). */
    method ReopenOthers(actor: int)
      requires Seated()
      modifies players`hasActed
      ensures forall j :: 0 <= j < MaxPlayers ==>
        players[j].hasActed == (old(players[j].hasActed) && !(j != actor && Live(players[j])))
    {
      var i := 0;
      while i < MaxPlayers
        invariant 0 <= i <= MaxPlayers
        invariant forall j :: 0 <= j < i ==>
          players[j].hasActed == (old(players[j].hasActed) && !(j != actor && Live(players[j])))
        invariant forall j :: i <= j < MaxPlayers ==> players[j].hasActed == old(players[j].hasActed)
      {
        if i != actor && Live(players[i]) {
          players[i].hasActed := false;
        }
        i := i + 1;
      }
    }

    /** The do-while of nextPlayer: step to the next seat, and on while that
        seat is folded or all-in, for at most eight steps. */
    method AdvanceTurn()
      requires Seated()
      modifies this`currentPlayer
      ensures Seated() && currentPlayer == Scan(players, old(currentPlayer), 1)
      ensures IsBettingRoundComplete() == old(IsBettingRoundComplete())
    {
      ghost var cur := currentPlayer;
      currentPlayer := After(currentPlayer);
      var attempts := 1;
      while !Live(players[currentPlayer]) && attempts < MaxPlayers
        invariant 1 <= attempts <= MaxPlayers && Seated()
        invariant currentPlayer == Ahead(cur, attempts)
        invariant Scan(players, cur, 1) == Scan(players, cur, attempts)
        decreases MaxPlayers - attempts
      {
        currentPlayer := After(currentPlayer);
        attempts := attempts + 1;
      }
    }

    // -------------------------------------------------------------------
    // Streets

    /** The bets, the community cards and the deck are as they were. */
    twostate predicate Idle()
      reads this`players, this`currentBet, this`communityCards, players`currentBet, deck`cards, deck`discardPile
    {
      && currentBet == old(currentBet) && communityCards == old(communityCards) && deck.cards == old(deck.cards)
      && deck.discardPile == old(deck.discardPile) && players == old(players)
      && forall j :: 0 <= j < |players| ==> players[j].currentBet == old(players[j].currentBet)
    }

    /** The street next dealt from the deck `from`, onto the board `board`,
        with the players `seats`: the phase moves on, the bets go back to
        zero, the dealer's seat has the turn, one card of `from` is burnt
        and the next k are revealed. */
    predicate DealtFrom(next: Phase, k: nat, from: seq<Card>, board: seq<Card>, seats: seq<Players.Player>)
      reads this`players, this`currentPlayer, this`gamePhase, this`currentBet, this`communityCards,
            this`dealerPosition, players`currentBet, deck`cards
    {
      && gamePhase == next && currentBet == 0 && currentPlayer == dealerPosition && players == seats
      && (forall j :: 0 <= j < |players| ==> players[j].currentBet == 0)
      && |from| >= k + 1
      && deck.cards == from[..|from| - k - 1]
      && communityCards == board + Drawn(from, k)
    }

    /** dealFlop, dealTurn and dealRiver, from the state before them. */
    twostate predicate StreetDealt(next: Phase, k: nat)
      reads this`players, this`currentPlayer, this`gamePhase, this`currentBet, this`communityCards,
            this`dealerPosition, players`currentBet, deck`cards
    {
      DealtFrom(next, k, old(deck.cards), old(communityCards), old(players))
    }

    /** The street after the preflop, flop or turn round, dealt as DealtFrom
        says; no street follows any other phase. */
    predicate NextStreetDealt(phase: Phase, from: seq<Card>, board: seq<Card>, seats: seq<Players.Player>)
      reads this`players, this`currentPlayer, this`gamePhase, this`currentBet, this`communityCards,
            this`dealerPosition, players`currentBet, deck`cards
    {
      match phase
      case Preflop => DealtFrom(Flop, 3, from, board, seats)
      case Flop => DealtFrom(Turn, 1, from, board, seats)
      case Turn => DealtFrom(River, 1, from, board, seats)
      case _ => false
    }

    /** The forEach that zeroes every player's bet. */
    method ClearBets()
      requires Seated()
      modifies players`currentBet
      ensures forall j :: 0 <= j < MaxPlayers ==> players[j].currentBet == 0
    {
      var i := 0;
      while i < MaxPlayers
        invariant 0 <= i <= MaxPlayers
        invariant forall j :: 0 <= j < i ==> players[j].currentBet == 0
      {
        players[i].currentBet := 0;
        i := i + 1;
      }
    }

    /** deck.burn, then k times deck.deal onto the community cards. */
    method BurnAndReveal(k: nat)
      requires |deck.cards| >= k + 1
      modifies deck`cards, deck`discardPile, this`communityCards
      ensures deck.cards == old(deck.cards)[..|old(deck.cards)| - k - 1]
      ensures communityCards == old(communityCards) + Drawn(old(deck.cards), k)
      ensures deck.discardPile == old(deck.discardPile) + Popped(old(deck.cards), k + 1)
    {
      ghost var cards := deck.cards;
      var _ := deck.Burn();
      var i := 0;
      while i < k
        invariant 0 <= i <= k
        invariant deck.cards == cards[..|cards| - 1 - i]
        invariant communityCards == old(communityCards) + Drawn(cards, i)
        invariant deck.discardPile == old(deck.discardPile) + Popped(cards, i + 1)
      {
        var r := deck.Deal();
        communityCards := communityCards + [r.value];
        i := i + 1;
      }
    }

    /** The shared body of the three street methods. */
    method DealStreet(next: Phase, k: nat)
      requires Seated() && |deck.cards| >= k + 1
      modifies this`gamePhase, this`currentBet, this`currentPlayer, players`currentBet,
               deck`cards, deck`discardPile, this`communityCards
      ensures Seated() && StreetDealt(next, k)
      ensures deck.discardPile == old(deck.discardPile) + Popped(old(deck.cards), k + 1)
    {
      gamePhase := next;
      currentBet := 0;
      currentPlayer := dealerPosition;
      ClearBets();
      BurnAndReveal(k);
    }

    /** dealFlop: burn one, reveal three. */
    method DealFlop()
      requires Valid() && gamePhase == Preflop
      modifies this`gamePhase, this`currentBet, this`currentPlayer, players`currentBet,
               deck`cards, deck`discardPile, this`communityCards
      ensures Valid() && StreetDealt(Flop, 3) && |communityCards| == 3
    {
      DealStreet(Flop, 3);
    }

    /** dealTurn: burn one, reveal the fourth card. */
    method DealTurn()
      requires Valid() && gamePhase == Flop
      modifies this`gamePhase, this`currentBet, this`currentPlayer, players`currentBet,
               deck`cards, deck`discardPile, this`communityCards
      ensures Valid() && StreetDealt(Turn, 1) && |communityCards| == 4
    {
      DealStreet(Turn, 1);
    }

    /** dealRiver: burn one, reveal the fifth card. */
    method DealRiver()
      requires Valid() && gamePhase == Turn
      modifies this`gamePhase, this`currentBet, this`currentPlayer, players`currentBet,
               deck`cards, deck`discardPile, this`communityCards
      ensures Valid() && StreetDealt(River, 1) && |communityCards| == 5
    {
      DealStreet(River, 1);
    }

    /** showdown: the hand reaches its last phase; the winner is drawn at
        random on a timer and is not part of this model. */
    method EnterShowdown()
      requires Valid() && gamePhase == River
      modifies this`gamePhase
      ensures Valid() && gamePhase == Phase.Showdown
    {
      gamePhase := Phase.Showdown;
    }

    /** completeBettingRound: the switch on the phase. Preflop, flop and
        turn deal the next street, the river goes to the showdown, and in
        any other phase nothing happens. */
    twostate predicate RoundClosed()
      reads this`players, this`currentPlayer, this`gamePhase, this`currentBet, this`communityCards,
            this`dealerPosition, players`currentBet, deck`cards, deck`discardPile
    {
      match old(gamePhase)
      case Preflop => StreetDealt(Flop, 3)
      case Flop => StreetDealt(Turn, 1)
      case Turn => StreetDealt(River, 1)
      case River => gamePhase == Phase.Showdown && Idle()
      case _ => gamePhase == old(gamePhase) && Idle()
    }

    method CompleteBettingRound()
      requires Valid()
      modifies this`gamePhase, this`currentBet, this`currentPlayer, players`currentBet,
               deck`cards, deck`discardPile, this`communityCards
      ensures Valid() && gamePhase == NextPhase(old(gamePhase)) && RoundClosed()
      ensures old(gamePhase) !in {Preflop, Flop, Turn} ==> currentPlayer == old(currentPlayer)
    {
      match gamePhase
      case Preflop => DealFlop();
      case Flop => DealTurn();
      case Turn => DealRiver();
      case River => EnterShowdown();
      case _ =>
    }

    /** nextPlayer: nothing while the game is inactive or paused; otherwise
        the turn moves to the next seat that is neither folded nor all-in
        (Scan), and when the betting round is complete the hand moves on
        (a new street gives the turn to the dealer's seat).
        The betting fields the completion test reads are not changed by
        the scan, so the test is stated on the state before the call. */
    method NextPlayer()
      requires Valid()
      modifies this`gamePhase, this`currentBet, this`currentPlayer, players`currentBet,
               deck`cards, deck`discardPile, this`communityCards
      ensures Valid()
      ensures !isGameActive || isPaused ==> currentPlayer == old(currentPlayer) && gamePhase == old(gamePhase) && Idle()
      ensures isGameActive && !isPaused && !old(IsBettingRoundComplete()) ==>
        && currentPlayer == Scan(players, old(currentPlayer), 1) && gamePhase == old(gamePhase) && Idle()
      ensures isGameActive && !isPaused && old(IsBettingRoundComplete()) ==>
        gamePhase == NextPhase(old(gamePhase)) && RoundClosed()
      ensures isGameActive && !isPaused && gamePhase == old(gamePhase) ==>
        currentPlayer == Scan(players, old(currentPlayer), 1) && Idle()
    {
      if !isGameActive || isPaused {
        return;
      }
      AdvanceTurn();
      if IsBettingRoundComplete() {
        CompleteBettingRound();
      }
    }

    /** startBettingRound: nothing while the game is inactive or paused;
        otherwise every player who is neither folded nor all-in has yet to
        act, and the turn moves on. With two or more such players that
        reopens the round, so the phase stays; with at most one the round
        is over at once and the hand moves on. */
    method StartBettingRound()
      requires Valid()
      modifies players`hasActed, this`gamePhase, this`currentBet, this`currentPlayer, players`currentBet,
               deck`cards, deck`discardPile, this`communityCards
      ensures Valid()
      ensures !isGameActive || isPaused ==>
        && currentPlayer == old(currentPlayer) && gamePhase == old(gamePhase) && Idle()
        && forall j :: 0 <= j < MaxPlayers ==> players[j].hasActed == old(players[j].hasActed)
      ensures isGameActive && !isPaused ==>
        forall j :: 0 <= j < MaxPlayers ==> players[j].hasActed == (old(players[j].hasActed) && !Live(players[j]))
      ensures isGameActive && !isPaused && |LivePlayers(players)| >= 2 ==>
        && currentPlayer == Scan(players, old(currentPlayer), 1) && gamePhase == old(gamePhase) && Idle()
      ensures isGameActive && !isPaused && |LivePlayers(players)| <= 1 ==>
        gamePhase == NextPhase(old(gamePhase)) && RoundClosed()
    {
      if !isGameActive || isPaused {
        return;
      }
      ReopenRound();
      NextPlayer();
    }

    /** The forEach of startBettingRound: no player who is neither folded
        nor all-in has acted, so with two of them the round is open. */
    method ReopenRound()
      requires Seated()
      modifies players`hasActed
      ensures forall j :: 0 <= j < MaxPlayers ==> players[j].hasActed == (old(players[j].hasActed) && !Live(players[j]))
      ensures |LivePlayers(players)| >= 2 ==> !IsBettingRoundComplete()
    {
      ReopenOthers(-1);
      var live := LivePlayers(players);
      if |live| >= 2 {
        var i :| 0 <= i < MaxPlayers && players[i] == live[0];
        assert !IsBettingRoundComplete();
      }
    }

    // -------------------------------------------------------------------
    // Player actions

    /** 'check': a check when the player's bet already matches the table's,
        otherwise a call of the difference. A call that the stack covers
        brings the player's bet up to the table's; one that it does not
        puts the player all-in. The pot takes exactly what was paid. */
    method CheckOrCall() returns (paid: int)
      requires Seated()
      modifies this`pot, {players[currentPlayer]}`chips, {players[currentPlayer]}`currentBet,
               {players[currentPlayer]}`totalBet, {players[currentPlayer]}`hasActed, {players[currentPlayer]}`isAllIn
      ensures var p := players[currentPlayer];
        && pot == old(pot) + paid && pot + p.chips == old(pot + p.chips)
        && (old(p.currentBet) == currentBet ==> paid == 0 && Checked(p))
        && (old(p.currentBet) != currentBet ==> Paid(p, paid))
        && (old(p.currentBet) != currentBet && currentBet - old(p.currentBet) <= old(p.chips) ==> p.currentBet == currentBet)
        && (old(p.currentBet) != currentBet && currentBet - old(p.currentBet) > old(p.chips) ==> p.chips == 0 && p.isAllIn)
    {
      var p := players[currentPlayer];
      paid := 0;
      if currentBet == p.currentBet {
        p.Check();
      } else {
        paid := p.Call(currentBet - p.currentBet);
        pot := pot + paid;
      }
    }

    /** 'raise': the table's bet becomes the amount asked, capped by what
        the player holds in stack and bet together; the player pays the
        difference to their own bet, and every other player still able to
        act has to act again. An amount below the player's own bet is not
        refused: the difference then flows back from the bet to the stack. */
    method RaiseTo(amount: int) returns (paid: int)
      requires Seated()
      modifies this`pot, this`currentBet, {players[currentPlayer]}`chips, {players[currentPlayer]}`currentBet,
               {players[currentPlayer]}`totalBet, {players[currentPlayer]}`isAllIn, players`hasActed
      ensures var p := players[currentPlayer];
        && currentBet == Min(amount, old(p.chips + p.currentBet)) && p.currentBet == currentBet
        && Paid(p, paid) && pot == old(pot) + paid && pot + p.chips == old(pot + p.chips)
      ensures forall j :: 0 <= j < MaxPlayers && j != currentPlayer ==>
        players[j].hasActed == (old(players[j].hasActed) && !Live(players[j]))
    {
      var p := players[currentPlayer];
      var raiseAmount := Min(amount, p.chips + p.currentBet);
      paid := p.Bet(raiseAmount - p.currentBet);
      pot := pot + paid;
      currentBet := raiseAmount;
      ReopenOthers(currentPlayer);
    }

    /** 'fold'. */
    method FoldTurn()
      requires Seated()
      modifies {players[currentPlayer]}`isFolded, {players[currentPlayer]}`hasActed
      ensures FoldedNow(players[currentPlayer])
    {
      players[currentPlayer].Fold();
    }

    /** 'allin': the whole stack goes into the pot; when that lifts the
        player's bet above the table's, it becomes the table's bet and
        every other player still able to act has to act again. */
    method GoAllIn() returns (paid: int)
      requires Seated()
      modifies this`pot, this`currentBet, {players[currentPlayer]}`chips, {players[currentPlayer]}`currentBet,
               {players[currentPlayer]}`totalBet, {players[currentPlayer]}`isAllIn, players`hasActed
      ensures var p := players[currentPlayer];
        && AllInPaid(p) && paid == old(p.chips) && pot == old(pot) + paid
        && currentBet == (if p.currentBet > old(currentBet) then p.currentBet else old(currentBet))
      ensures forall j :: 0 <= j < MaxPlayers && j != currentPlayer ==>
        players[j].hasActed == (old(players[j].hasActed)
                                && !(players[currentPlayer].currentBet > old(currentBet) && Live(players[j])))
    {
      var p := players[currentPlayer];
      paid := p.AllIn();
      pot := pot + paid;
      if p.currentBet > currentBet {
        currentBet := p.currentBet;
        ReopenOthers(currentPlayer);
      }
    }

    /** The effect of the switch of processPlayerAction for the player at
        seat actor, who pays into the pot exactly what the pot gains.
        'check' is a check when no bet is owed and otherwise a call of
        what is owed, which puts the player all-in when the stack does not
        cover it; 'raise' makes the table's bet the amount asked, capped by
        stack and bet together; 'fold' folds; 'allin' pays the whole stack
        and lifts the table's bet when the player's bet passes it; 'call'
        and unknown names change nothing. A raise, and an all-in that lifts
        the table's bet, make every other player still able to act act
        again; the other players' stacks, bets and flags stay. */
    twostate predicate Acted(action: Action, amount: int, actor: nat)
      reads this`players, this`pot, this`currentBet,
            players`chips, players`currentBet, players`totalBet, players`hasActed, players`isAllIn, players`isFolded
    {
      ActedStacks(action, amount, actor) && ActedBets(action, amount, actor)
    }

    /** What an action of the player at seat actor leaves behind once the
        bets of the round are cleared: the actor paid ActionCost into the
        pot, out of their stack and into their total bet; a fold folds, an
        all-in (or a check or raise that took the whole stack) is all in,
        and every action the switch knows marks the actor acted. Every other
        player keeps stack, total bet and flags, and has to act again after
        a raise, or after an all-in above the table's bet, while neither
        folded nor all-in. */
    twostate predicate ActedStacks(action: Action, amount: int, actor: nat)
      reads this`players, this`pot,
            players`chips, players`totalBet, players`hasActed, players`isAllIn, players`isFolded
    {
      && players == old(players) && actor < |players|
      && var p := players[actor];
      var owed := old(currentBet) - old(p.currentBet);
      var paid := ActionCost(action, amount, old(p.chips), old(p.currentBet), old(currentBet));
      && pot == old(pot) + paid && p.chips == old(p.chips) - paid && p.totalBet == old(p.totalBet) + paid
      && p.isFolded == (old(p.isFolded) || action == Fold)
      && p.hasActed == (old(p.hasActed) || action in {Check, Raise, Fold, AllIn})
      && p.isAllIn == (|| old(p.isAllIn) || action == AllIn
                       || ((action == Raise || (action == Check && owed != 0)) && p.chips == 0))
      && forall j :: 0 <= j < |players| && j != actor ==>
           && players[j].chips == old(players[j].chips) && players[j].totalBet == old(players[j].totalBet)
           && players[j].isFolded == old(players[j].isFolded) && players[j].isAllIn == old(players[j].isAllIn)
           && players[j].hasActed == (old(players[j].hasActed)
                && !((action == Raise || (action == AllIn && old(p.chips + p.currentBet) > old(currentBet)))
                     && old(Live(players[j]))))
    }

    /** The bets an action of the player at seat actor leaves until they
        are cleared: what the actor paid is added to their bet; a raise
        makes the table's bet the actor's new bet, an all-in does so when
        it passes the table's bet, and every other action keeps it; every
        other player keeps their bet. */
    twostate predicate ActedBets(action: Action, amount: int, actor: nat)
      reads this`players, this`currentBet, players`currentBet
    {
      && players == old(players) && actor < |players|
      && var p := players[actor];
      var paid := ActionCost(action, amount, old(p.chips), old(p.currentBet), old(currentBet));
      && p.currentBet == old(p.currentBet) + paid
      && currentBet == (if action == Raise || (action == AllIn && p.currentBet > old(currentBet)) then p.currentBet
                        else old(currentBet))
      && forall j :: 0 <= j < |players| && j != actor ==> players[j].currentBet == old(players[j].currentBet)
    }

    /** The switch of processPlayerAction on the action's name ('call' has
        no case of its own there). Only the player whose turn it is pays,
        and the pot takes exactly what they paid. */
    method ApplyAction(action: Action, amount: int) returns (paid: int)
      requires Seated()
      modifies this`pot, this`currentBet, {players[currentPlayer]}`chips, {players[currentPlayer]}`currentBet,
               {players[currentPlayer]}`totalBet, {players[currentPlayer]}`isAllIn,
               {players[currentPlayer]}`isFolded, players`hasActed
      ensures var p := players[currentPlayer]; pot == old(pot) + paid && pot + p.chips == old(pot + p.chips)
      ensures Acted(action, amount, currentPlayer)
    {
      paid := 0;
      match action
      case Check => paid := CheckOrCall();
      case Raise => paid := RaiseTo(amount);
      case Fold => FoldTurn();
      case AllIn => paid := GoAllIn();
      case _ =>
      forall j | 0 <= j < MaxPlayers && j != currentPlayer
        ensures && players[j].chips == old(players[j].chips) && players[j].currentBet == old(players[j].currentBet)
                && players[j].totalBet == old(players[j].totalBet) && players[j].isFolded == old(players[j].isFolded)
                && players[j].isAllIn == old(players[j].isAllIn)
      {
        assert players[j].id != players[currentPlayer].id;
      }
    }

    /** processPlayerAction: nothing while the game is inactive or paused;
        otherwise TakeTurn. */
    method ProcessPlayerAction(action: Action, amount: int)
      requires Valid()
      modifies this`pot, this`currentBet, players`chips, players`currentBet, players`totalBet, players`isAllIn,
               players`isFolded, players`hasActed, this`gamePhase, this`currentPlayer,
               deck`cards, deck`discardPile, this`communityCards
      ensures Valid()
      ensures !isGameActive || isPaused ==>
        && pot == old(pot) && currentPlayer == old(currentPlayer) && gamePhase == old(gamePhase) && Idle()
        && forall j :: 0 <= j < MaxPlayers ==> Untouched(players[j]) && players[j].isFolded == old(players[j].isFolded)
      ensures isGameActive && !isPaused ==>
        && pot + players[old(currentPlayer)].chips == old(pot + players[currentPlayer].chips)
        && (gamePhase == old(gamePhase) || gamePhase == NextPhase(old(gamePhase)))
      ensures isGameActive && !isPaused && gamePhase == old(gamePhase) ==>
        Acted(action, amount, old(currentPlayer)) && currentPlayer == Scan(players, old(currentPlayer), 1)
      ensures forall j :: 0 <= j < MaxPlayers && j != old(currentPlayer) ==>
        players[j].chips == old(players[j].chips) && players[j].totalBet == old(players[j].totalBet)
      ensures isGameActive && !isPaused ==> ActedStacks(action, amount, old(currentPlayer))
      ensures isGameActive && !isPaused && old(gamePhase) == River ==>
        Acted(action, amount, old(currentPlayer)) && communityCards == old(communityCards) && deck.cards == old(deck.cards)
      ensures isGameActive && !isPaused && gamePhase != old(gamePhase) && old(gamePhase) != River ==>
        NextStreetDealt(old(gamePhase), old(deck.cards), old(communityCards), old(players))
    {
      if !isGameActive || isPaused {
        return;
      }
      TakeTurn(action, amount);
    }

    /** The action of the player whose turn it is, then nextPlayer. Chips
        only move between that player's stack and the pot, and the hand
        stays in its phase or moves to the next one. While it stays, the
        action's effect is what remains and the turn has passed to the
        next seat that is neither folded nor all-in. */
    method TakeTurn(action: Action, amount: int)
      requires Valid() && isGameActive && !isPaused
      modifies this`pot, this`currentBet, players`chips, players`currentBet, players`totalBet, players`isAllIn,
               players`isFolded, players`hasActed, this`gamePhase, this`currentPlayer,
               deck`cards, deck`discardPile, this`communityCards
      ensures Valid()
      ensures pot + players[old(currentPlayer)].chips == old(pot + players[currentPlayer].chips)
      ensures gamePhase == old(gamePhase) || gamePhase == NextPhase(old(gamePhase))
      ensures forall j :: 0 <= j < MaxPlayers && j != old(currentPlayer) ==>
        players[j].chips == old(players[j].chips) && players[j].totalBet == old(players[j].totalBet)
      ensures gamePhase == old(gamePhase) || old(gamePhase) == River ==> Acted(action, amount, old(currentPlayer))
      ensures gamePhase == old(gamePhase) ==> currentPlayer == Scan(players, old(currentPlayer), 1)
      ensures ActedStacks(action, amount, old(currentPlayer))
      ensures gamePhase != old(gamePhase) && old(gamePhase) != River ==>
        NextStreetDealt(old(gamePhase), old(deck.cards), old(communityCards), old(players))
      ensures old(gamePhase) == River ==> communityCards == old(communityCards) && deck.cards == old(deck.cards)
    {
      var _ := ApplyAction(action, amount);
      PassTurn();
    }

    /** nextPlayer as the end of a turn sees it: the hand stays in its
        phase or moves to the next one, and while it stays only the turn
        has moved, to the next seat that is neither folded nor all-in. */
    method PassTurn()
      requires Valid() && isGameActive && !isPaused
      modifies this`gamePhase, this`currentBet, this`currentPlayer, players`currentBet,
               deck`cards, deck`discardPile, this`communityCards
      ensures Valid()
      ensures gamePhase == old(gamePhase) || gamePhase == NextPhase(old(gamePhase))
      ensures gamePhase == old(gamePhase) ==>
        && currentPlayer == Scan(players, old(currentPlayer), 1) && currentBet == old(currentBet)
        && players == old(players) && forall j :: 0 <= j < |players| ==> players[j].currentBet == old(players[j].currentBet)
      ensures gamePhase != old(gamePhase) ==> RoundClosed()
      ensures gamePhase != old(gamePhase) && old(gamePhase) != River ==>
        NextStreetDealt(old(gamePhase), old(deck.cards), old(communityCards), old(players))
      ensures unchanged(this`pot, this`players, players`chips, players`totalBet, players`hasActed, players`isAllIn,
                        players`isFolded)
      ensures gamePhase == old(gamePhase) || old(gamePhase) == River ==>
        && unchanged(players) && currentBet == old(currentBet)
        && communityCards == old(communityCards) && deck.cards == old(deck.cards)
    {
      NextPlayer();
      if gamePhase == old(gamePhase) || old(gamePhase) == River {
        forall q | q in players
          ensures q.currentBet == old(q.currentBet)
        {
          var j :| 0 <= j < |players| && players[j] == q;
        }
      }
    }

    /** pauseGame: while paused, nextPlayer, startBettingRound and
        processPlayerAction do nothing. */
    method PauseGame()
      modifies this`isPaused
      ensures isPaused
    {
      isPaused := true;
    }

    /** resumeGame. */
    method ResumeGame()
      modifies this`isPaused
      ensures !isPaused
    {
      isPaused := false;
    }

    /** continueGame: the dealer button moves one seat round the table,
        then a new hand starts, with the blinds and the first turn placed
        after the new button. */
    method ContinueGame()
      requires Seated()
      modifies this`dealerPosition, this`isGameActive, this`isPaused, this`pot, this`communityCards, this`gamePhase,
               this`currentBet, this`currentPlayer, deck`cards, deck`discardPile,
               players`cards, players`chips, players`currentBet, players`totalBet, players`hasActed,
               players`isAllIn, players`isFolded
      ensures dealerPosition == (old(dealerPosition) + 1) % MaxPlayers
      ensures Valid() && isGameActive && !isPaused && gamePhase == Preflop && communityCards == []
      ensures |deck.cards| == 52 - 2 * ActiveOf(players) && Accounted()
      ensures forall j :: 0 <= j < MaxPlayers ==>
        && !players[j].isFolded && |players[j].cards| == (if players[j].isActive then 2 else 0)
      ensures var sb, bb := After(dealerPosition), After(After(dealerPosition));
        var small, big := Min(SmallBlind, old(players[sb].chips)), Min(BigBlind, old(players[bb].chips));
        && players[sb].chips == old(players[sb].chips) - small && players[sb].currentBet == small
        && players[bb].chips == old(players[bb].chips) - big && players[bb].currentBet == big
        && pot == small + big
        && forall j :: 0 <= j < MaxPlayers && j != sb && j != bb ==>
             players[j].chips == old(players[j].chips) && players[j].currentBet == 0
      ensures currentBet == BigBlind && currentPlayer == After(After(After(dealerPosition)))
    {
      AfterIsNext(dealerPosition);
      dealerPosition := After(dealerPosition);
      StartNewGame();
    }

    /** deck.deal on a deck that still holds the cards not yet dealt from
        the top of `cards`: the next of them comes off and is discarded. */
    method DrawTop(ghost cards: seq<Card>, ghost discarded: seq<Card>, ghost d: nat) returns (c: Card)
      requires d < |cards| && deck.cards == cards[..|cards| - d]
      requires deck.discardPile == discarded + Popped(cards, d)
      modifies deck`cards, deck`discardPile
      ensures c == cards[|cards| - 1 - d]
      ensures deck.cards == cards[..|cards| - (d + 1)] && old(deck.cards) == deck.cards + [c]
      ensures deck.discardPile == discarded + Popped(cards, d + 1)
    {
      var r := deck.Deal();
      c := r.value;
      assert cards[..|cards| - d][..|cards| - d - 1] == cards[..|cards| - (d + 1)];
    }
  }
}
