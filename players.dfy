/** The player entity of the modular client (src/entities/Player.js): a seat
    whose chips, bets and flags its methods update in place. */
module Players {
  import opened Cards

  function Min(a: int, b: int): int {
    if a < b then a else b
  }

  /** A screen position; it plays no part in the rules. */
  datatype Point = Point(x: int, y: int)

  /** What toJSON exposes of a player: no cards. */
  datatype PlayerJson = PlayerJson(
    id: nat, name: string, chips: int, currentBet: int, isActive: bool,
    isAllIn: bool, isFolded: bool, isHost: bool, isBot: bool, position: Point)

  class Player {
    const id: nat
    const name: string
    const position: Point
    const isHuman: bool
    const isBot: bool

    var chips: int
    var cards: seq<Card>
    var currentBet: int
    var totalBet: int
    var isActive: bool
    var hasActed: bool
    var isAllIn: bool
    var isFolded: bool
    var isHost: bool

    /** A new player has no chips, no cards, no bet and no flag set; it is a
        bot exactly when it is not human. */
    constructor (id: nat, name: string, position: Point, isHuman: bool)
      ensures this.id == id && this.name == name && this.position == position
      ensures this.isHuman == isHuman && isBot == !isHuman
      ensures chips == 0 && cards == [] && currentBet == 0 && totalBet == 0
      ensures isActive && !hasActed && !isAllIn && !isFolded && !isHost
    {
      this.id := id;
      this.name := name;
      this.position := position;
      this.isHuman := isHuman;
      this.isBot := !isHuman;
      chips := 0;
      cards := [];
      currentBet := 0;
      totalBet := 0;
      isActive := true;
      hasActed := false;
      isAllIn := false;
      isFolded := false;
      isHost := false;
    }

    /** Clears the hand state for a new hand; the chips stay. */
    method Reset()
      modifies this`cards, this`currentBet, this`totalBet, this`hasActed, this`isAllIn, this`isFolded
      ensures cards == [] && currentBet == 0 && totalBet == 0
      ensures !hasActed && !isAllIn && !isFolded
    {
      cards := [];
      currentBet := 0;
      totalBet := 0;
      hasActed := false;
      isAllIn := false;
      isFolded := false;
    }

    method AddCard(card: Card)
      modifies this`cards
      ensures cards == old(cards) + [card]
    {
      cards := cards + [card];
    }

    /** Moves min(amount, chips) from the stack into the bet and returns it; a
        player whose stack reaches zero is all-in. */
    method Bet(amount: int) returns (actual: int)
      modifies this`chips, this`currentBet, this`totalBet, this`hasActed, this`isAllIn
      ensures actual == Min(amount, old(chips))
      ensures chips == old(chips) - actual
      ensures currentBet == old(currentBet) + actual && totalBet == old(totalBet) + actual
      ensures hasActed
      ensures isAllIn == (old(isAllIn) || chips == 0)
      ensures old(chips) >= 0 ==> chips >= 0
    {
      actual := Min(amount, chips);
      chips := chips - actual;
      currentBet := currentBet + actual;
      totalBet := totalBet + actual;
      hasActed := true;
      if chips == 0 {
        isAllIn := true;
      }
    }

    method Fold()
      modifies this`isFolded, this`hasActed
      ensures isFolded && hasActed
    {
      isFolded := true;
      hasActed := true;
    }

    /** A call is a bet of the amount owed. */
    method Call(amount: int) returns (actual: int)
      modifies this`chips, this`currentBet, this`totalBet, this`hasActed, this`isAllIn
      ensures actual == Min(amount, old(chips))
      ensures chips == old(chips) - actual
      ensures currentBet == old(currentBet) + actual && totalBet == old(totalBet) + actual
      ensures hasActed
      ensures isAllIn == (old(isAllIn) || chips == 0)
    {
      actual := Bet(amount);
    }

    method Raise(amount: int) returns (actual: int)
      modifies this`chips, this`currentBet, this`totalBet, this`hasActed, this`isAllIn
      ensures actual == Min(amount, old(chips))
      ensures chips == old(chips) - actual
      ensures currentBet == old(currentBet) + actual && totalBet == old(totalBet) + actual
      ensures hasActed
      ensures isAllIn == (old(isAllIn) || chips == 0)
    {
      hasActed := true;
      actual := Bet(amount);
    }

    method Check()
      modifies this`hasActed
      ensures hasActed
    {
      hasActed := true;
    }

    /** Bets the whole stack and returns what the stack was. */
    method AllIn() returns (amount: int)
      modifies this`chips, this`currentBet, this`totalBet, this`hasActed, this`isAllIn
      ensures amount == old(chips)
      ensures chips == 0 && isAllIn && hasActed
      ensures currentBet == old(currentBet) + amount && totalBet == old(totalBet) + amount
    {
      amount := chips;
      var _ := Bet(amount);
      isAllIn := true;
    }

    method WinPot(amount: int)
      modifies this`chips
      ensures chips == old(chips) + amount
    {
      chips := chips + amount;
    }

    /** The public view of the player: its identity, stack, bet and flags,
        and never its cards. */
    function ToJson(): (j: PlayerJson)
      reads this
      ensures j.id == id && j.chips == chips && j.currentBet == currentBet
      ensures j.isAllIn == isAllIn && j.isFolded == isFolded && j.isBot == isBot
      ensures j.name == name && j.isActive == isActive && j.isHost == isHost && j.position == position
    {
      PlayerJson(id, name, chips, currentBet, isActive, isAllIn, isFolded, isHost, isBot, position)
    }
  }
}
