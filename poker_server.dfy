/** The room of the multiplayer server (server.js): its seats, deck, pot and
    betting state, which the room's methods update in place. */
module PokerServer {
  import opened Wrappers
  import opened Cards
  import opened Table

  const MaxPlayersPerRoom := 8
  const MinPlayersToStart := 2
  const StartingChips := 10000
  const SmallBlind := 50
  const BigBlind := 100
  const BotNames: seq<string> := ["Alice", "Bob", "Charlie", "Diana", "Eve", "Frank", "Grace"]

  /** The messages of the room's refusals. */
  datatype RoomError =
    | RoomFull
    | NeedTwoPlayers
    | NotYourTurn
    | CannotCheck
    | RaiseTooLow
    | InvalidAction

  /** What an accepted action reports. */
  datatype Outcome =
    | Checked
    | Called(amount: int)
    | Raised(amount: int)
    | Folded
    | WentAllIn(amount: int)

  /** A seat as getGameState shows it to one player. */
  datatype SeatView = SeatView(
    id: string, name: string, chips: int, cards: seq<Card>, isBot: bool,
    isHost: bool, currentBet: int, isAllIn: bool, isFolded: bool, position: int)

  /** The whole table as getGameState shows it to one player. */
  datatype GameView = GameView(
    roomId: string, players: seq<SeatView>, communityCards: seq<Card>, pot: int,
    currentPlayer: nat, gamePhase: Phase, currentBet: int, gameStarted: bool,
    dealerPosition: nat)

  /** A newly seated player or bot: the starting stack, no cards, no bet. */
  function Newcomer(id: string, name: string, isBot: bool, isHost: bool, position: int): Seat {
    Seat(id, name, StartingChips, [], false, isBot, isHost, true, false, 0, false, false, position)
  }

  /** findIndex by id: the first seat carrying it. */
  function IndexOf(ps: seq<Seat>, id: string): (r: Option<nat>)
    ensures r.Some? ==> r.value < |ps| && ps[r.value].id == id
                        && forall k :: 0 <= k < r.value ==> ps[k].id != id
    ensures r.None? <==> forall k :: 0 <= k < |ps| ==> ps[k].id != id
  {
    if ps == [] then None
    else if ps[0].id == id then Some(0)
    else match IndexOf(ps[1..], id)
      case None => None
      case Some(k) => Some(k + 1)
  }

  /** The seat list without seat k; if k was the host and anyone is left,
      the first remaining seat becomes host. */
  function WithoutSeat(ps: seq<Seat>, k: nat): (r: seq<Seat>)
    requires k < |ps|
    ensures |r| == |ps| - 1
    ensures forall j :: 0 <= j < |r| ==>
      r[j] == if j == 0 && ps[k].isHost then (ps[..k] + ps[k + 1..])[0].(isHost := true)
              else (ps[..k] + ps[k + 1..])[j]
  {
    var rest := ps[..k] + ps[k + 1..];
    if ps[k].isHost && |rest| > 0 then rest[0 := rest[0].(isHost := true)] else rest
  }

  /** One seat as player `viewer` sees it: its cards only if it is the
      viewer's own seat. */
  function ViewSeat(s: Seat, viewer: string): SeatView {
    SeatView(s.id, s.name, s.chips, if s.id == viewer then s.cards else [], s.isBot,
             s.isHost, s.currentBet, s.isAllIn, s.isFolded, s.position)
  }

  function ViewSeats(ps: seq<Seat>, viewer: string): (vs: seq<SeatView>)
    ensures |vs| == |ps|
    ensures forall j :: 0 <= j < |ps| ==> vs[j] == ViewSeat(ps[j], viewer)
  {
    if ps == [] then [] else [ViewSeat(ps[0], viewer)] + ViewSeats(ps[1..], viewer)
  }

  /** A player sees the cards of its own seat and of no other. */
  lemma ViewShowsOnlyOwnCards(ps: seq<Seat>, viewer: string, j: nat)
    requires j < |ps|
    ensures ViewSeats(ps, viewer)[j].cards == (if ps[j].id == viewer then ps[j].cards else [])
    ensures ViewSeats(ps, viewer)[j].chips == ps[j].chips
  {
  }

  /** The blinds posted on seats that kept their stacks and lost their bets are
      the blinds of the new hand. */
  lemma BlindsAfterReset(before: seq<Seat>, dealt: seq<Seat>, after: seq<Seat>, dealer: nat, turn: int)
    requires |dealt| == |before| > 0
    requires forall j :: 0 <= j < |dealt| ==> dealt[j].chips == before[j].chips && dealt[j].currentBet == 0
    requires var n := |dealt|;
      && after == PostedBlinds(dealt, SmallBlindSeat(dealer, n), BigBlindSeat(dealer, n), SmallBlind, BigBlind)
      && turn == (BigBlindSeat(dealer, n) + 1) % n
    ensures Blinds(before, after, dealer, turn)
  {
    var n := |dealt|;
    BlindsOnCleared(before, dealt, SmallBlindSeat(dealer, n), BigBlindSeat(dealer, n), SmallBlind, BigBlind);
  }

  /** Nothing a player is sent depends on the cards of another seat: the
      view is the same whatever those cards are. */
  lemma ViewIgnoresOthersCards(ps: seq<Seat>, viewer: string, j: nat, cards: seq<Card>)
    requires j < |ps| && ps[j].id != viewer
    ensures ViewSeats(ps[j := ps[j].(cards := cards)], viewer) == ViewSeats(ps, viewer)
  {
    var qs := ps[j := ps[j].(cards := cards)];
    assert forall k :: 0 <= k < |ps| ==> ViewSeat(qs[k], viewer) == ViewSeat(ps[k], viewer);
  }

  function SmallBlindSeat(dealer: nat, n: nat): nat
    requires n > 0
  {
    (dealer + 1) % n
  }

  function BigBlindSeat(dealer: nat, n: nat): nat
    requires n > 0
  {
    (dealer + 2) % n
  }

  /** The blinds of a new hand from the seats before it: the small blind seat
      has paid and bet the small blind, the big blind seat the big blind, every
      other seat keeps its stack with no bet, and the turn is the seat after the
      big blind. */
  ghost predicate Blinds(before: seq<Seat>, after: seq<Seat>, dealer: nat, turn: int)
  {
    var n := |after|;
    && n == |before| && n > 0
    && var sb, bb := SmallBlindSeat(dealer, n), BigBlindSeat(dealer, n);
       && turn == (bb + 1) % n
       && BlindsPaid(before, after, sb, bb, SmallBlind, BigBlind)
  }

  /** Why processAction refuses an action of seat p while the table's bet
      is bet: a check with a bet owed, a raise not above the table's bet,
      or an action it does not know. */
  function Refusal(p: Seat, bet: int, action: Action, amount: int): Option<RoomError> {
    match action
    case Check => if bet != p.currentBet then Some(CannotCheck) else None
    case Raise => if amount <= bet then Some(RaiseTooLow) else None
    case Unknown => Some(InvalidAction)
    case _ => None
  }

  /** An accepted action of seat i, from the table ps, pot and bet before to
      r, pot' and bet' after, reporting out. A call pays what is owed, or
      the whole stack if that is less; a raise is capped at the seat's
      chips plus its bet and makes every other seat in play act again; an
      all-in does that only when it exceeds the table's bet. */
  predicate SeatActed(ps: seq<Seat>, pot: int, bet: int, i: nat, action: Action, amount: int,
                      out: Outcome, r: seq<Seat>, pot': int, bet': int)
    requires i < |ps|
  {
    var p := ps[i];
    match action
    case Check =>
      out == Checked && r == ps[i := p.(hasActed := true)] && pot' == pot && bet' == bet
    case Call =>
      var paid := Min(bet - p.currentBet, p.chips);
      out == Called(paid) && r == ps[i := Pay(p, paid)] && pot' == pot + paid && bet' == bet
    case Raise =>
      var target := Min(amount, p.chips + p.currentBet);
      && out == Raised(target) && bet' == target && pot' == pot + (target - p.currentBet)
      && ReopenedFrom(ps[i := Pay(p, target - p.currentBet)], r, i)
    case Fold =>
      out == Folded && r == ps[i := p.(isFolded := true, hasActed := true)] && pot' == pot && bet' == bet
    case AllIn =>
      var all := p.chips + p.currentBet;
      && out == WentAllIn(all) && pot' == pot + p.chips
      && (all > bet ==> bet' == all && ReopenedFrom(ps[i := Pay(p, p.chips)], r, i))
      && (all <= bet ==> bet' == bet && r == ps[i := Pay(p, p.chips)])
    case Unknown => false
  }

  /** The seats after the rest of a hand was played out from before, with
      nobody acting: the later streets change only bets and whose turn it is,
      so every hand, every folded and all-in flag and every stack is kept,
      except that at a showdown one seat that had not folded may have taken
      the pot. */
  ghost predicate DealtOn(before: seq<Seat>, after: seq<Seat>, pot: int, showdown: bool)
  {
    && |after| == |before|
    && (forall j :: 0 <= j < |after| ==>
          && after[j].cards == before[j].cards
          && after[j].isFolded == before[j].isFolded && after[j].isAllIn == before[j].isAllIn)
    && (|| (forall j :: 0 <= j < |after| ==> after[j].chips == before[j].chips)
        || (&& showdown
            && exists w :: 0 <= w < |before| && !before[w].isFolded &&
                 forall j :: 0 <= j < |after| ==> after[j].chips == before[j].chips + (if j == w then pot else 0)))
  }

  /** A step that keeps every hand, flag and stack can be put in front of
      the rest of the hand. */
  lemma DealtOnAfter(a: seq<Seat>, b: seq<Seat>, c: seq<Seat>, pot: int, showdown: bool)
    requires |b| == |a|
    requires forall j :: 0 <= j < |a| ==>
      && b[j].cards == a[j].cards && b[j].chips == a[j].chips
      && b[j].isFolded == a[j].isFolded && b[j].isAllIn == a[j].isAllIn
    requires DealtOn(b, c, pot, showdown)
    ensures DealtOn(a, c, pot, showdown)
  {
    if !forall j :: 0 <= j < |c| ==> c[j].chips == b[j].chips {
      var w :| 0 <= w < |b| && !b[w].isFolded &&
        forall j :: 0 <= j < |c| ==> c[j].chips == b[j].chips + (if j == w then pot else 0);
      assert !a[w].isFolded;
    }
  }

  class PokerRoom {
    const roomId: string
    var players: seq<Seat>
    var deck: seq<Card>
    var communityCards: seq<Card>
    var pot: int
    var currentPlayer: nat
    var dealerPosition: nat
    var gamePhase: Phase
    var currentBet: int
    var gameStarted: bool
    var bots: seq<string>

    /** At most eight seats, and enough cards left in the deck for the
        burns and reveals still to come in this hand. */
    predicate Valid()
      reads this
    {
      |players| <= MaxPlayersPerRoom && |deck| >= CardsStillNeeded(gamePhase)
    }

    constructor (roomId: string)
      ensures Valid()
      ensures this.roomId == roomId && players == [] && deck == [] && communityCards == []
      ensures pot == 0 && currentPlayer == 0 && dealerPosition == 0 && gamePhase == Waiting
      ensures currentBet == 0 && !gameStarted && bots == []
    {
      this.roomId := roomId;
      players := [];
      deck := [];
      communityCards := [];
      pot := 0;
      currentPlayer := 0;
      dealerPosition := 0;
      gamePhase := Waiting;
      currentBet := 0;
      gameStarted := false;
      bots := [];
    }

    /** Seats a new player at the end, unless eight are already seated; the
        first player to sit down is the host. */
    method AddPlayer(socketId: string, playerName: string) returns (r: Result<Seat, RoomError>)
      requires Valid()
      modifies this`players
      ensures Valid()
      ensures old(|players|) >= MaxPlayersPerRoom ==> r == Failure(RoomFull) && players == old(players)
      ensures old(|players|) < MaxPlayersPerRoom ==>
        && r == Success(Newcomer(socketId, playerName, false, old(|players|) == 0, old(|players|)))
        && players == old(players) + [r.value]
    {
      if |players| >= MaxPlayersPerRoom {
        return Failure(RoomFull);
      }
      var player := Newcomer(socketId, playerName, false, |players| == 0, |players|);
      players := players + [player];
      r := Success(player);
    }

    /** Removes the first seat with this id, keeping the others in order;
        when the host leaves, the new first seat becomes host. An unknown id
        changes nothing. */
    method RemovePlayer(socketId: string) returns (removed: bool)
      requires Valid()
      modifies this`players
      ensures Valid()
      ensures removed <==> IndexOf(old(players), socketId).Some?
      ensures !removed ==> players == old(players)
      ensures removed ==> players == WithoutSeat(old(players), IndexOf(old(players), socketId).value)
    {
      var k := IndexOf(players, socketId);
      if k.None? {
        return false;
      }
      players := WithoutSeat(players, k.value);
      removed := true;
    }

    /** Fills the room with bots, taking the names in order, up to eight
        seats and at most one bot per name. */
    method AddBots()
      requires Valid()
      modifies this`players, this`bots
      ensures Valid()
      ensures |players| == old(|players|) + Min(MaxPlayersPerRoom - old(|players|), |BotNames|)
      ensures players[..old(|players|)] == old(players)
      ensures forall j :: old(|players|) <= j < |players| ==>
        && players[j].name == BotNames[j - old(|players|)]
        && players[j].isBot && !players[j].isHost && players[j].chips == StartingChips
        && players[j].position == j && players[j].cards == []
        && players[j].isActive && !players[j].hasActed && players[j].currentBet == 0
        && !players[j].isAllIn && !players[j].isFolded
      ensures |bots| == old(|bots|) + (|players| - old(|players|))
    {
      var botsNeeded := Min(MaxPlayersPerRoom - |players|, |BotNames|);
      var i := 0;
      while i < botsNeeded
        invariant 0 <= i <= botsNeeded
        invariant |players| == old(|players|) + i && |bots| == old(|bots|) + i
        invariant players[..old(|players|)] == old(players)
        invariant forall j :: old(|players|) <= j < |players| ==>
          && players[j].name == BotNames[j - old(|players|)]
          && players[j].isBot && !players[j].isHost && players[j].chips == StartingChips
          && players[j].position == j && players[j].cards == []
          && players[j].isActive && !players[j].hasActed && players[j].currentBet == 0
          && !players[j].isAllIn && !players[j].isFolded
      {
        var uuid: string :| true;
        var bot := Newcomer("bot_" + uuid, BotNames[i], true, false, |players|);
        players := players + [bot];
        bots := bots + [bot.id];
        i := i + 1;
      }
    }

    /** createDeck, then shuffleDeck: the 52 cards in some order. */
    method NewDeck()
      modifies this`deck
      ensures multiset(deck) == FullDeck() && |deck| == 52
    {
      CreateDeck();
      ShuffleDeck();
    }

    /** A fresh deck in suit-major order. */
    method CreateDeck()
      modifies this`deck
      ensures deck == SuitMajor(AllSuits, AllRanks, RankValue) && |deck| == 52
      ensures multiset(deck) == FullDeck()
    {
      deck := BuildDeck(AllSuits, AllRanks, RankValue);
      StandardDeck();
    }

    method ShuffleDeck()
      modifies this`deck
      ensures multiset(deck) == old(multiset(deck)) && |deck| == old(|deck|)
    {
      deck := FisherYates(deck);
    }

    /** Two passes round the table, one card per active seat per pass. */
    method DealHoleCards()
      requires |deck| >= 2 * CountActive(players)
      modifies this`players, this`deck
      ensures |players| == old(|players|)
      ensures deck == old(deck)[..old(|deck|) - 2 * CountActive(old(players))]
      ensures forall j :: 0 <= j < |players| ==> players[j] == DealtSeat(old(players), old(deck), j, 2)
      ensures forall j :: 0 <= j < |players| ==>
        |players[j].cards| == old(|players[j].cards|) + (if old(players[j]).isActive then 2 else 0)
        && players[j] == old(players[j]).(cards := players[j].cards)
      ensures Held(deck, players) == old(Held(deck, players))
      ensures TotalChips(players) == old(TotalChips(players))
    {
      var ps, rest := Table.DealHoleCards(players, deck);
      SameStacks(players, ps);
      players, deck := ps, rest;
    }

    /** The seat after the dealer posts the small blind and the next one the
        big blind, without any check of their stacks; the table's bet is the
        big blind and the seat after the big blind acts first. */
    method PostBlinds()
      requires |players| > 0
      modifies this`players, this`pot, this`currentBet, this`currentPlayer
      ensures |players| == old(|players|)
      ensures var n := |players|;
        players == PostedBlinds(old(players), SmallBlindSeat(dealerPosition, n), BigBlindSeat(dealerPosition, n), SmallBlind, BigBlind)
      ensures currentPlayer == (BigBlindSeat(dealerPosition, |players|) + 1) % |players|
      ensures pot == old(pot) + SmallBlind + BigBlind && currentBet == BigBlind
      ensures TotalChips(players) + pot == old(TotalChips(players) + pot)
      ensures forall j :: 0 <= j < |players| ==>
        players[j] == old(players[j]).(chips := players[j].chips, currentBet := players[j].currentBet)
      ensures HoleCards(players) == old(HoleCards(players))
    {
      var n := |players|;
      var sb, bb := SmallBlindSeat(dealerPosition, n), BigBlindSeat(dealerPosition, n);
      ghost var before := players;
      PostedBlindsTotal(players, sb, bb, SmallBlind, BigBlind);
      PostedBlindsFields(players, sb, bb, SmallBlind, BigBlind);
      players := PostedBlinds(players, sb, bb, SmallBlind, BigBlind);
      forall j | 0 <= j < n
        ensures players[j] == before[j].(chips := players[j].chips, currentBet := players[j].currentBet)
      {
      }
      HoleCardsSame(players, before);
      pot := pot + SmallBlind + BigBlind;
      currentBet := BigBlind;
      currentPlayer := (bb + 1) % n;
    }

    /** With two seats or more the two blinds come from two different
        seats. */
    lemma BlindsFromTwoSeats(dealer: nat, n: nat)
      requires n >= 2
      ensures SmallBlindSeat(dealer, n) != BigBlindSeat(dealer, n)
    {
      BlindSeatsDiffer(dealer, n);
    }

    /** Starts a hand with at least two seats: a new shuffled deck, every
        seat reset, two hole cards per active seat, then the blinds. */
    method StartGame() returns (r: Result<(), RoomError>)
      requires Valid()
      modifies this
      ensures Valid()
      ensures old(|players|) < MinPlayersToStart ==> r == Failure(NeedTwoPlayers) && unchanged(this)
      ensures old(|players|) >= MinPlayersToStart ==>
        && r.Success? && gameStarted && gamePhase == Preflop && dealerPosition == 0
        && |players| == old(|players|)
        && (forall j :: 0 <= j < |players| ==>
              |players[j].cards| == (if old(players[j]).isActive then 2 else 0)
              && !players[j].isFolded && !players[j].isAllIn)
        && |deck| == 52 - 2 * CountActive(old(players))
        && Held(deck, players) == FullDeck()
        && pot == old(pot) + SmallBlind + BigBlind && currentBet == BigBlind
        && TotalChips(players) + pot == old(TotalChips(players) + pot)
        && Blinds(old(players), players, 0, currentPlayer)
    {
      if |players| < MinPlayersToStart {
        return Failure(NeedTwoPlayers);
      }
      gameStarted := true;
      gamePhase := Preflop;
      dealerPosition := 0;
      DealNewHand();
      r := Success(());
    }

    /** What startGame and startNextHand share: every seat reset, a new
        shuffled deck, two hole cards per active seat, then the blinds. */
    method DealNewHand()
      requires 0 < |players| <= MaxPlayersPerRoom
      modifies this`players, this`deck, this`pot, this`currentBet, this`currentPlayer
      ensures |players| == old(|players|)
      ensures forall j :: 0 <= j < |players| ==>
        |players[j].cards| == (if old(players[j]).isActive then 2 else 0)
        && !players[j].isFolded && !players[j].isAllIn
      ensures |deck| == 52 - 2 * CountActive(old(players))
      ensures Held(deck, players) == FullDeck()
      ensures pot == old(pot) + SmallBlind + BigBlind && currentBet == BigBlind
      ensures TotalChips(players) + pot == old(TotalChips(players) + pot)
      ensures Blinds(old(players), players, dealerPosition, currentPlayer)
    {
      ghost var before := players;
      PrepareHand();
      ghost var dealt := players;
      PostBlinds();
      BlindsAfterReset(before, dealt, players, dealerPosition, currentPlayer);
      forall j | 0 <= j < |players|
        ensures |players[j].cards| == |dealt[j].cards|
        ensures !players[j].isFolded && !players[j].isAllIn
      {
        assert players[j] == dealt[j].(chips := players[j].chips, currentBet := players[j].currentBet);
      }
    }

    /** The part of a new hand before the blinds: a new shuffled deck,
        every seat reset and two hole cards per active seat. */
    method PrepareHand()
      requires 0 < |players| <= MaxPlayersPerRoom
      modifies this`players, this`deck
      ensures |players| == old(|players|)
      ensures forall j :: 0 <= j < |players| ==>
        |players[j].cards| == (if old(players[j]).isActive then 2 else 0)
        && !players[j].isFolded && !players[j].isAllIn
        && players[j].chips == old(players[j]).chips && players[j].currentBet == 0 && !players[j].hasActed
      ensures |deck| == 52 - 2 * CountActive(old(players))
      ensures Held(deck, players) == FullDeck()
      ensures TotalChips(players) == old(TotalChips(players))
    {
      ghost var before := players;
      NewDeck();
      var reset := ResetHands(players);
      CountActiveSame(players, reset);
      NoHoleCards(reset);
      players := reset;
      DealHoleCards();
      forall j | 0 <= j < |players|
        ensures |players[j].cards| == (if before[j].isActive then 2 else 0)
        ensures !players[j].isFolded && !players[j].isAllIn
        ensures players[j].chips == before[j].chips && players[j].currentBet == 0 && !players[j].hasActed
      {
        assert players[j] == reset[j].(cards := players[j].cards);
      }
    }

    /** The seat whose turn it is acts, if the id is seated and it is that
        seat's turn; an accepted action passes the turn on. A refused
        action changes nothing. */
    method PlayerAction(socketId: string, action: Action, amount: int)
      returns (r: Result<Outcome, RoomError>)
      requires Valid()
      modifies this
      ensures Valid() && |players| == old(|players|)
      ensures r.Failure? ==> unchanged(this)
      ensures r.Success? ==>
        || TotalChips(players) + pot == old(TotalChips(players) + pot)
        || (gamePhase == Showdown && TotalChips(players) == old(TotalChips(players) + pot))
      ensures (|| IndexOf(old(players), socketId).None?
               || old(currentPlayer) >= old(|players|)
               || old(players)[old(currentPlayer)].id != socketId) ==> r == Failure(NotYourTurn)
      ensures (&& IndexOf(old(players), socketId).Some?
               && old(currentPlayer) < old(|players|)
               && old(players)[old(currentPlayer)].id == socketId) ==>
        var i := IndexOf(old(players), socketId).value;
        && (r.Failure? <==> Refusal(old(players[i]), old(currentBet), action, amount).Some?)
        && (r.Failure? ==> Some(r.error) == Refusal(old(players[i]), old(currentBet), action, amount))
        && (r.Success? && gamePhase == old(gamePhase) ==>
              && SeatActed(old(players), old(pot), old(currentBet), i, action, amount, r.value, players, pot, currentBet)
              && deck == old(deck) && communityCards == old(communityCards)
              && (exists steps :: Skips(players, old(currentPlayer), |players|, steps)
                                  && currentPlayer == Clockwise(old(currentPlayer), steps, |players|))
              && (old(gamePhase) in {Preflop, Flop, Turn, River} ==> InPlay(players[currentPlayer])))
        && (r.Success? ==>
              exists acted: seq<Seat>, bet: int ::
                && SeatActed(old(players), old(pot), old(currentBet), i, action, amount, r.value, acted, pot, bet)
                && DealtOn(acted, players, pot, gamePhase == Showdown))
    {
      var k := IndexOf(players, socketId);
      if k.None? || currentPlayer >= |players| || players[currentPlayer].id != socketId {
        return Failure(NotYourTurn);
      }
      r := ProcessAction(k.value, action, amount);
      if r.Success? {
        ghost var acted, bet := players, currentBet;
        NextPlayer();
        assert SeatActed(old(players), old(pot), old(currentBet), k.value, action, amount, r.value, acted, pot, bet);
      }
    }

    /** processAction for seat i: refused as Refusal says, with nothing
        changed, otherwise as SeatActed says. Chips only move from stacks
        to the pot. */
    method ProcessAction(i: nat, action: Action, amount: int) returns (r: Result<Outcome, RoomError>)
      requires i < |players|
      modifies this`players, this`pot, this`currentBet
      ensures |players| == old(|players|)
      ensures TotalChips(players) + pot == old(TotalChips(players) + pot)
      ensures r.Failure? <==> Refusal(old(players[i]), old(currentBet), action, amount).Some?
      ensures r.Failure? ==>
        && Some(r.error) == Refusal(old(players[i]), old(currentBet), action, amount)
        && players == old(players) && pot == old(pot) && currentBet == old(currentBet)
      ensures r.Success? ==>
        SeatActed(old(players), old(pot), old(currentBet), i, action, amount, r.value, players, pot, currentBet)
      ensures action == AllIn ==>
        players[i] == old(players[i]).(chips := 0, currentBet := old(players[i].chips) + old(players[i].currentBet),
                                       isAllIn := true, hasActed := true)
    {
      var p := players[i];
      match action {
        case Check =>
          if currentBet == p.currentBet {
            players := players[i := p.(hasActed := true)];
            SameStacks(old(players), players);
            r := Success(Checked);
          } else {
            r := Failure(CannotCheck);
          }
        case Call =>
          var paid := Min(currentBet - p.currentBet, p.chips);
          PayConserves(players, i, paid, pot);
          players := players[i := Pay(p, paid)];
          pot := pot + paid;
          r := Success(Called(paid));
        case Raise =>
          if amount <= currentBet {
            return Failure(RaiseTooLow);
          }
          var target := Min(amount, p.chips + p.currentBet);
          RaiseTo(i, target);
          r := Success(Raised(target));
        case Fold =>
          players := players[i := p.(isFolded := true, hasActed := true)];
          SameStacks(old(players), players);
          r := Success(Folded);
        case AllIn =>
          var all := p.chips + p.currentBet;
          GoAllIn(i);
          r := Success(WentAllIn(all));
        case Unknown =>
          r := Failure(InvalidAction);
      }
    }

    /** A raise by seat i to target: the seat pays the difference, the
        table's bet becomes target and every other seat in play must act
        again. */
    method RaiseTo(i: nat, target: int)
      requires i < |players|
      modifies this`players, this`pot, this`currentBet
      ensures |players| == old(|players|)
      ensures currentBet == target && pot == old(pot) + (target - old(players[i].currentBet))
      ensures ReopenedFrom(old(players)[i := Pay(old(players[i]), target - old(players[i].currentBet))], players, i)
      ensures TotalChips(players) + pot == old(TotalChips(players) + pot)
    {
      var extra := target - players[i].currentBet;
      PayConserves(players, i, extra, pot);
      var paid := players[i := Pay(players[i], extra)];
      pot := pot + extra;
      currentBet := target;
      players := Reopen(paid, i);
      ReopenKeeps(paid, players, i);
    }

    /** An all-in by seat i: the whole stack goes into the pot; only a bet
        above the table's reopens the betting. */
    method GoAllIn(i: nat)
      requires i < |players|
      modifies this`players, this`pot, this`currentBet
      ensures |players| == old(|players|)
      ensures var all := old(players[i].chips) + old(players[i].currentBet);
        && pot == old(pot) + old(players[i].chips)
        && players[i] == old(players[i]).(chips := 0, currentBet := all, isAllIn := true, hasActed := true)
        && (all > old(currentBet) ==>
              currentBet == all && ReopenedFrom(old(players)[i := Pay(old(players[i]), old(players[i].chips))], players, i))
        && (all <= old(currentBet) ==>
              currentBet == old(currentBet) && players == old(players)[i := Pay(old(players[i]), old(players[i].chips))])
      ensures TotalChips(players) + pot == old(TotalChips(players) + pot)
    {
      var p := players[i];
      var all := p.chips + p.currentBet;
      PayConserves(players, i, p.chips, pot);
      var paid := players[i := Pay(p, p.chips)];
      var r, bet := paid, currentBet;
      if all > currentBet {
        r := Reopen(paid, i);
        ReopenKeeps(paid, r, i);
        bet := all;
      }
      players, pot, currentBet := r, pot + p.chips, bet;
    }

    /** The do-while of nextPlayer, then either the next phase, when the
        betting round is complete, or the turn of the seat reached. */
    method NextPlayer()
      requires Valid() && |players| > 0
      modifies this
      decreases PhasesLeft(gamePhase), 2
      ensures Valid() && |players| == old(|players|) && pot == old(pot)
      ensures PhasesLeft(gamePhase) <= PhasesLeft(old(gamePhase))
      ensures gamePhase == old(gamePhase) ==>
        && players == old(players) && deck == old(deck) && communityCards == old(communityCards)
        && currentBet == old(currentBet)
      ensures gamePhase == old(gamePhase) ==> currentPlayer < |players|
      ensures gamePhase == old(gamePhase) ==>
        exists steps :: Skips(old(players), old(currentPlayer), |players|, steps)
                        && currentPlayer == Clockwise(old(currentPlayer), steps, |players|)
      ensures gamePhase == old(gamePhase) && old(gamePhase) in {Preflop, Flop, Turn, River} ==>
        !RoundComplete(players, currentBet) && InPlay(players[currentPlayer])
      ensures |communityCards| >= old(|communityCards|) && communityCards[..old(|communityCards|)] == old(communityCards)
      ensures TotalChips(players) == old(TotalChips(players))
              || (gamePhase == Showdown && TotalChips(players) == old(TotalChips(players)) + pot)
      ensures DealtOn(old(players), players, pot, gamePhase == Showdown)
    {
      var next, steps := NextSeat(players, currentPlayer, |players|);
      assert Skips(players, currentPlayer, |players|, steps);
      currentPlayer := next;
      if RoundComplete(players, currentBet) {
        CompleteBettingRound();
      } else {
        assert CountInPlay(players) >= 2;
        assert exists s :: 0 <= s < |players| && InPlay(players[s]);
      }
    }

    method CompleteBettingRound()
      requires Valid() && |players| > 0
      modifies this
      decreases PhasesLeft(gamePhase), 1
      ensures Valid() && |players| == old(|players|) && pot == old(pot)
      ensures PhasesLeft(gamePhase) <= PhasesLeft(old(gamePhase))
      ensures old(gamePhase) in {Preflop, Flop, Turn, River} ==> PhasesLeft(gamePhase) < PhasesLeft(old(gamePhase))
      ensures gamePhase == old(gamePhase) ==> unchanged(this)
      ensures |communityCards| >= old(|communityCards|) && communityCards[..old(|communityCards|)] == old(communityCards)
      ensures TotalChips(players) == old(TotalChips(players))
              || (gamePhase == Showdown && TotalChips(players) == old(TotalChips(players)) + pot)
      ensures DealtOn(old(players), players, pot, gamePhase == Showdown)
    {
      match gamePhase {
        case Preflop => DealFlop();
        case Flop => DealTurn();
        case Turn => DealRiver();
        case River => var _ := ShowDown();
        case _ =>
      }
    }

    /** Every later betting round opens the same way: the phase is set, all
        bets go back to zero, every seat in play has to act again, and the
        turn starts from the dealer. */
    method BeginRound(phase: Phase)
      modifies this`gamePhase, this`currentBet, this`currentPlayer, this`players
      ensures gamePhase == phase && currentBet == 0 && currentPlayer == dealerPosition
      ensures |players| == old(|players|)
      ensures forall j :: 0 <= j < |players| ==>
        players[j] == (if InPlay(old(players[j])) then old(players[j]).(currentBet := 0, hasActed := false)
                       else old(players[j]).(currentBet := 0))
      ensures TotalChips(players) == old(TotalChips(players))
    {
      gamePhase := phase;
      currentBet := 0;
      currentPlayer := dealerPosition;
      var cleared := ClearBets(players);
      var reopened := Reopen(cleared, -1);
      ReopenKeeps(cleared, reopened, -1);
      SameStacks(players, cleared);
      players := reopened;
    }

    /** Burns the top card, then moves the next k cards to the table. */
    method BurnAndReveal(k: nat)
      requires |deck| >= k + 1
      modifies this`deck, this`communityCards
      ensures deck == old(deck)[..old(|deck|) - k - 1]
      ensures communityCards == old(communityCards) + Drawn(old(deck), k)
    {
      deck, communityCards := Table.BurnAndReveal(deck, communityCards, k);
    }

    method DealFlop()
      requires |players| > 0 && |players| <= MaxPlayersPerRoom && |deck| >= CardsStillNeeded(Preflop)
      modifies this
      decreases 3, 3
      ensures Valid() && |players| == old(|players|) && pot == old(pot)
      ensures PhasesLeft(gamePhase) <= PhasesLeft(Flop)
      ensures |communityCards| >= old(|communityCards|) + 3
      ensures communityCards[..old(|communityCards|) + 3] == old(communityCards) + Drawn(old(deck), 3)
      ensures TotalChips(players) == old(TotalChips(players))
              || (gamePhase == Showdown && TotalChips(players) == old(TotalChips(players)) + pot)
      ensures DealtOn(old(players), players, pot, gamePhase == Showdown)
    {
      BeginRound(Flop);
      ghost var reset := players;
      BurnAndReveal(3);
      NextPlayer();
      DealtOnAfter(old(players), reset, players, pot, gamePhase == Showdown);
    }

    method DealTurn()
      requires |players| > 0 && |players| <= MaxPlayersPerRoom && |deck| >= CardsStillNeeded(Flop)
      modifies this
      decreases 2, 3
      ensures Valid() && |players| == old(|players|) && pot == old(pot)
      ensures PhasesLeft(gamePhase) <= PhasesLeft(Turn)
      ensures |communityCards| >= old(|communityCards|) + 1
      ensures communityCards[..old(|communityCards|) + 1] == old(communityCards) + Drawn(old(deck), 1)
      ensures TotalChips(players) == old(TotalChips(players))
              || (gamePhase == Showdown && TotalChips(players) == old(TotalChips(players)) + pot)
      ensures DealtOn(old(players), players, pot, gamePhase == Showdown)
    {
      BeginRound(Turn);
      ghost var reset := players;
      BurnAndReveal(1);
      NextPlayer();
      DealtOnAfter(old(players), reset, players, pot, gamePhase == Showdown);
    }

    method DealRiver()
      requires |players| > 0 && |players| <= MaxPlayersPerRoom && |deck| >= CardsStillNeeded(Turn)
      modifies this
      decreases 1, 3
      ensures Valid() && |players| == old(|players|) && pot == old(pot)
      ensures PhasesLeft(gamePhase) <= PhasesLeft(River)
      ensures |communityCards| >= old(|communityCards|) + 1
      ensures communityCards[..old(|communityCards|) + 1] == old(communityCards) + Drawn(old(deck), 1)
      ensures TotalChips(players) == old(TotalChips(players))
              || (gamePhase == Showdown && TotalChips(players) == old(TotalChips(players)) + pot)
      ensures DealtOn(old(players), players, pot, gamePhase == Showdown)
    {
      BeginRound(River);
      ghost var reset := players;
      BurnAndReveal(1);
      NextPlayer();
      DealtOnAfter(old(players), reset, players, pot, gamePhase == Showdown);
    }

    /** The simplified showdown: some seat that has not folded, chosen at
        random, receives the pot; the pot itself is only cleared when the
        next hand starts. With every seat folded nobody is paid. */
    method ShowDown() returns (winner: Option<nat>)
      requires |players| <= MaxPlayersPerRoom
      modifies this`gamePhase, this`players
      ensures Valid() && gamePhase == Showdown && |players| == old(|players|)
      ensures winner.None? <==> forall j :: 0 <= j < |players| ==> old(players[j]).isFolded
      ensures winner.None? ==> players == old(players)
      ensures winner.Some? ==>
        && winner.value < |players| && !old(players[winner.value]).isFolded
        && players == old(players)[winner.value := old(players[winner.value]).(chips := old(players[winner.value].chips) + pot)]
      ensures TotalChips(players) == old(TotalChips(players)) + (if winner.Some? then pot else 0)
    {
      gamePhase := Showdown;
      if exists j :: 0 <= j < |players| && !players[j].isFolded {
        var w :| 0 <= w < |players| && !players[w].isFolded;
        var paid := players[w].(chips := players[w].chips + pot);
        TotalChipsUpdate(players, w, paid);
        players := players[w := paid];
        winner := Some(w);
      } else {
        winner := None;
      }
    }

    /** What follows a showdown: the dealer button moves one seat on and the
        next hand starts. */
    method NextHand()
      requires Valid() && |players| > 0
      modifies this
      ensures Valid() && gamePhase == Preflop
      ensures dealerPosition == (old(dealerPosition) + 1) % old(|players|)
      ensures |players| == old(|players|) && communityCards == []
      ensures forall j :: 0 <= j < |players| ==>
        |players[j].cards| == (if old(players[j]).isActive then 2 else 0)
        && !players[j].isFolded && !players[j].isAllIn
      ensures |deck| == 52 - 2 * CountActive(old(players))
      ensures Held(deck, players) == FullDeck()
      ensures pot == SmallBlind + BigBlind && currentBet == BigBlind
      ensures TotalChips(players) + pot == old(TotalChips(players))
      ensures Blinds(old(players), players, dealerPosition, currentPlayer)
    {
      dealerPosition := (dealerPosition + 1) % |players|;
      StartNextHand();
    }

    /** startNextHand: an empty pot and table, every seat reset, a new
        shuffled deck, hole cards and blinds. */
    method StartNextHand()
      requires Valid() && |players| > 0
      modifies this
      ensures Valid() && gamePhase == Preflop && dealerPosition == old(dealerPosition)
      ensures |players| == old(|players|) && communityCards == []
      ensures forall j :: 0 <= j < |players| ==>
        |players[j].cards| == (if old(players[j]).isActive then 2 else 0)
        && !players[j].isFolded && !players[j].isAllIn
      ensures |deck| == 52 - 2 * CountActive(old(players))
      ensures Held(deck, players) == FullDeck()
      ensures pot == SmallBlind + BigBlind && currentBet == BigBlind
      ensures TotalChips(players) + pot == old(TotalChips(players))
      ensures Blinds(old(players), players, dealerPosition, currentPlayer)
    {
      pot := 0;
      communityCards := [];
      gamePhase := Preflop;
      currentBet := 0;
      DealNewHand();
    }

    /** getGameState: the room as player `socketId` may see it. */
    function GetGameState(socketId: string): (v: GameView)
      reads this
      ensures |v.players| == |players|
      ensures forall j :: 0 <= j < |players| ==>
        v.players[j].cards == (if players[j].id == socketId then players[j].cards else [])
      ensures v.pot == pot && v.communityCards == communityCards && v.currentPlayer == currentPlayer
    {
      GameView(roomId, ViewSeats(players, socketId), communityCards, pot, currentPlayer,
               gamePhase, currentBet, gameStarted, dealerPosition)
    }
  }
}
