# Texas Hold'em rules engine — a Dafny model

This project models the rules of a browser and server Texas Hold'em game.
The repository holds the same engine three times, plus a room lobby and some
helpers:

- **the single-player table** (`poker-game.js`): eight fixed seats, the human
  in seat 0 and seven bots;
- **the multiplayer room** (`server.js`, class `PokerRoom`): seats joined by
  sockets, bots, and a redacted state snapshot per player;
- **the modular client** (`src/managers/GameManager.js` over the `Player` and
  `Deck` objects of `src/entities/`).

Each engine posts blinds, deals two hole cards per active seat and takes
check, call, raise, fold and all-in actions. Turns skip folded and all-in
seats. A betting round closes when every player able to act has acted and
matched the table bet. The flop, turn and river each burn one card and
reveal three, one and one community cards. The hand evaluator of
`poker-game.js` does the following:

- enumerates the five-card subsets;
- classifies each subset from high card to royal flush;
- picks the best one;
- keys ties inside a category by a base-100 number;
- settles the showdown, splitting the pot evenly and rounding each share
  down.

The lobby server (`simple-server.js`) keeps a map of rooms. Its rules are an
8-seat cap, a host-only start, host hand-over and deletion of an empty room.
`src/utils/Utils.js` adds array and string helpers.

The Dafny modules follow the source:

| module | file | source |
|---|---|---|
| `Wrappers` | wrappers.dfy | Option and Result |
| `Cards` | cards.dfy | `src/entities/Card.js`, the card constants of `src/config/GameConfig.js` |
| `Players` | players.dfy | `src/entities/Player.js` (class `Player`) |
| `Subsets` | subsets.dfy | `getCombinations` of `poker-game.js` |
| `HandEvaluator` | hand_evaluator.dfy | `getHandRank`, the `is*` tests, `getRankCounts`, `getTiebreaker`, `findBestHand` |
| `Table` | table.dfy | the seat record and the seat-list steps that `poker-game.js` and `server.js` share |
| `PokerGame` | poker_game.dfy | `poker-game.js` (class `Game`) |
| `PokerServer` | poker_server.dfy | `server.js` (class `PokerRoom`) |
| `Manager` | game_manager.dfy | `src/managers/GameManager.js` (class `GameManager`) |
| `SimpleServer` | simple_server.dfy | `simple-server.js` (class `Lobby`) |
| `Utils` | utils.dfy | `src/utils/Utils.js` |

Code that updates state in place is modelled as classes with `modifies`
clauses and loops. This covers the deck, the players, the three game
objects and the lobby. The evaluator and the helpers are pure functions.

Timer callbacks (`setTimeout`) become steps that run in sequence. Where the
callback calls straight back into the game, the model does the same. For
example, in `server.js` each street deal calls `nextPlayer`, so the model's
deal and turn methods call each other.

`Math.random` in a shuffle becomes "some permutation": the swap index is
chosen by `:|`.

## Model

| member | source | states |
|---|---|---|
| Cards.RankValue | src/config/GameConfig.js:56-59 | every rank is worth 2..14, as in RANK_VALUES |
| Cards.EqualsIgnoresValue | src/entities/Card.js:21-23 | two cards are equal exactly when they agree once `value` is set aside, i.e. on suit and rank |
| Cards.RedBlackComplementary | src/entities/Card.js:25-31 | every card is exactly one of red and black |
| Cards.ParseSuit | src/entities/Card.js:41-43 | a suit name that parses prints back to the same name |
| Cards.ParseRank | src/entities/Card.js:41-43 | a rank name that parses prints back to the same name |
| Cards.ToJson | src/entities/Card.js:33-39 | the JSON form carries the card's suit name, rank name and value |
| Cards.FromJson | src/entities/Card.js:41-43 | a card read from JSON serialises back to exactly that JSON |
| Cards.JsonRoundTrip | src/entities/Card.js:33-43 | fromJSON(toJSON(c)) gives back c, with its suit, rank and value |
| Cards.SuitMajorAt | src/entities/Card.js:56-64 | create lays out one card per suit and rank in suit-major order: position i·13+j (for 13 ranks) holds suit i and rank j, valued by the rank table |
| Cards.SuitRowAt | src/entities/Card.js:57-63 | one suit contributes one card per rank, in rank order, each valued by the rank table |
| Cards.SuitMajorLength | src/entities/Card.js:56-64 | the deck has one card per suit and rank pair |
| Cards.SuitMajorDistinct | src/entities/Card.js:56-64 | distinct suits and ranks give a deck without repeated cards |
| Cards.StandardDeck | src/config/GameConfig.js:54-59 | the four suits and thirteen ranks give 52 distinct cards, which as a multiset are the full deck: each suit and rank pair once |
| Cards.SuitMajorCards | src/entities/Card.js:56-64 | from distinct suits and ranks, the built deck holds each suit and rank pair exactly once, valued by the rank table |
| Cards.InSuitMajor | src/entities/Card.js:56-64 | a card is in the built deck exactly when its suit and rank are listed and its value is the rank table's |
| Cards.BuildDeck | src/entities/Card.js:56-64 | the nested forEach loop builds exactly the suit-major deck |
| Cards.FisherYates | src/entities/Card.js:66-72 | the Fisher–Yates swap loop returns a permutation of its input |
| Cards.Deck.constructor | src/entities/Card.js:51-54 | a new deck has no cards and an empty discard pile |
| Cards.Deck.Create | src/entities/Card.js:56-64 | cards become the suit-major deck and the discard pile is untouched |
| Cards.Deck.Shuffle | src/entities/Card.js:66-72 | cards become a permutation of themselves |
| Cards.Deck.Deal | src/entities/Card.js:74-81 | an empty deck fails with EmptyDeck and changes nothing; otherwise the top (last) card is removed, appended to the discard pile and returned; the cards plus the discard pile keep their total count |
| Cards.Deck.Burn | src/entities/Card.js:83-85 | the same as deal |
| Cards.Deck.Reset | src/entities/Card.js:87-91 | the discard pile returns into cards (the same multiset) and becomes empty; the total count is kept |
| Cards.Deck.IsEmpty | src/entities/Card.js:93-99 | empty exactly when no cards remain |
| Players.Player.constructor | src/entities/Player.js:7-32 | identity as given, a bot exactly when not human, no chips, cards or bets, active and with no other flag set |
| Players.Player.Reset | src/entities/Player.js:34-41 | cards, currentBet, totalBet, hasActed, isAllIn and isFolded are cleared; chips are untouched |
| Players.Player.AddCard | src/entities/Player.js:55-57 | the card is appended to the hand |
| Players.Player.Bet | src/entities/Player.js:59-71 | moves min(amount, chips): chips drop by the returned amount, currentBet and totalBet rise by it, hasActed is set, isAllIn becomes set once chips reach 0, and a non-negative stack stays non-negative |
| Players.Player.Call | src/entities/Player.js:78-80 | identical to bet |
| Players.Player.Raise | src/entities/Player.js:82-85 | identical to bet |
| Players.Player.Fold | src/entities/Player.js:73-76 | sets isFolded and hasActed and touches nothing else |
| Players.Player.Check | src/entities/Player.js:87-89 | only sets hasActed |
| Players.Player.AllIn | src/entities/Player.js:91-96 | returns the previous stack, leaves chips 0 with isAllIn and hasActed set, and raises currentBet and totalBet by that amount |
| Players.Player.WinPot | src/entities/Player.js:98-100 | chips rise by exactly the amount |
| Players.Player.ToJson | src/entities/Player.js:155-168 | the public view reports the player's id, stack, bet and flags; its type has no cards field |
| Subsets.Singletons | poker-game.js:1096 | size 1 gives each element alone, in order |
| Subsets.Prepend | poker-game.js:1102 | each tail combination gets the head in front |
| Subsets.ChooseAbove | poker-game.js:1095 | C(n,k) = 0 when k > n, so a size above the length yields no combination |
| Subsets.CombinationsCount | poker-game.js:1094-1105 | getCombinations(arr, k) has exactly C(n, k) entries for n elements |
| Subsets.SevenChooseFive | poker-game.js:1094-1105 | seven cards give 21 five-card combinations |
| Subsets.CombinationsSound | poker-game.js:1094-1105 | every combination is a k-element subsequence of arr, in input order |
| Subsets.CombinationsComplete | poker-game.js:1094-1105 | every k-element subsequence of arr is among the combinations |
| Subsets.CombinationsDistinct | poker-game.js:1094-1105 | from distinct elements, no combination appears twice |
| Subsets.FirstCombination | poker-game.js:1098-1103 | the first combination is the first k elements |
| HandEvaluator.SortAscending | poker-game.js:1052 | the sorted values are ascending and a permutation of the input |
| HandEvaluator.Insert | poker-game.js:1052 | inserting into an ascending list keeps it ascending and adds exactly that value |
| HandEvaluator.ReversePermutes | poker-game.js:1214 | reversing keeps the same values |
| HandEvaluator.SortDescending | poker-game.js:1214 | the values sorted high to low are descending and a permutation of the input |
| HandEvaluator.SortedUnique | poker-game.js:1052 | two ascending permutations of the same values are equal, so the sort is determined by its input |
| HandEvaluator.DistinctRanks | poker-game.js:1081-1087 | the keys of the rank count: each rank of the hand exactly once |
| HandEvaluator.RankCounts | poker-game.js:1081-1087 | one entry per rank present, each counting that rank's cards |
| HandEvaluator.CountsHas | poker-game.js:1035-1038 | a count is among the counted values exactly when some rank of the hand occurs that many times |
| HandEvaluator.Counts | poker-game.js:1036-1038 | the counts listed are those of the rank count, entry by entry |
| HandEvaluator.HandRank | poker-game.js:1014-1025 | the rank lies in 0..9; it is 9 exactly for a royal flush and 0 exactly when no category test matches |
| HandEvaluator.StraightIffRun | poker-game.js:1051-1063 | five cards are a straight exactly when their values are five consecutive numbers or {2,3,4,5,14} |
| HandEvaluator.StraightShapeIff | poker-game.js:1051-1063 | sorted values pass the straight test exactly when they are five consecutive numbers or the wheel |
| HandEvaluator.StraightRanksDiffer | poker-game.js:1051-1063 | a straight holds each rank at most once |
| HandEvaluator.EvenNotStraight | poker-game.js:1051-1063 | cards of only even values are never a straight |
| HandEvaluator.PairedNotStraight | poker-game.js:1051-1063 | a repeated rank rules out a straight |
| HandEvaluator.RoyalIsStraightFlush | poker-game.js:1027-1033 | a royal flush is a straight flush whose sorted values are 10,11,12,13,14 |
| HandEvaluator.BroadwayOnly | poker-game.js:1027-1033 | five ascending values up to 14 that include 10 to 14 are exactly 10,11,12,13,14 |
| HandEvaluator.StraightFlushNotRoyal | poker-game.js:1014-1016 | a straight flush that is not royal is ranked 8 |
| HandEvaluator.PlainStraightRank | poker-game.js:1014-1021 | a straight that is not a flush is ranked 4 |
| HandEvaluator.FlushSameSuit | poker-game.js:1046-1049 | in a flush every card has the first card's suit |
| HandEvaluator.TwoSuitsNotFlush | poker-game.js:1046-1049 | two suits rule out a flush |
| HandEvaluator.AtMostFourOfARank | poker-game.js:1035-1038 | five different cards hold at most four of one rank |
| HandEvaluator.RepeatedRankMatches | poker-game.js:1035-1079 | among five different cards, a repeated rank makes the hand a pair, trips or quads |
| HandEvaluator.HighCardRanksDiffer | poker-game.js:1014-1025 | a high-card hand of five different cards has five different ranks |
| HandEvaluator.NoAceNotRoyal | poker-game.js:1027-1029 | without an ace there is no royal flush and the rank is at most 8 |
| HandEvaluator.KeyOrder | poker-game.js:1213-1245 | the base-100 tiebreak key orders digit sequences lexicographically and is injective |
| HandEvaluator.RankOfCount | poker-game.js:1247-1263 | a rank found by count is a value in 2..14 of a rank present that many times, and never the excluded value |
| HandEvaluator.FirstOfCount | poker-game.js:1249-1261 | find over the rank count returns the value of an entry with that count, never the excluded value |
| HandEvaluator.PairRank | poker-game.js:1257-1263 | the pair rank is a key digit (0 when no pair remains) |
| HandEvaluator.TwoPairRanks | poker-game.js:1265-1270 | each listed pair rank is a value in 2..14 |
| HandEvaluator.Without | poker-game.js:1215-1235 | the kickers kept are values of the hand outside the excluded ranks |
| HandEvaluator.MaxOf | poker-game.js:1233 | the largest of the pair ranks: a member that no other exceeds |
| HandEvaluator.MinOf | poker-game.js:1233 | the smallest of the pair ranks: a member that exceeds no other |
| HandEvaluator.TiebreakDigits | poker-game.js:1213-1245 | every category's tiebreak is a sequence of base-100 digits |
| HandEvaluator.QuadsDigits | poker-game.js:1217-1220 | the four-of-a-kind key is two base-100 digits |
| HandEvaluator.FullHouseDigits | poker-game.js:1222-1225 | the full-house key is two base-100 digits |
| HandEvaluator.TripsDigits | poker-game.js:1227-1230 | the trips key is three base-100 digits |
| HandEvaluator.TwoPairDigits | poker-game.js:1232-1235 | the two-pair key is three base-100 digits |
| HandEvaluator.PairDigits | poker-game.js:1237-1240 | the pair key is base-100 digits |
| HandEvaluator.ValueOr0 | poker-game.js:1262 | a missing rank is keyed 0 and a present one is kept as a digit |
| HandEvaluator.ValuesTiebreak | poker-game.js:1242-1243 | for high card, flush, straight and the straight flushes the key digits are the five values high to low |
| HandEvaluator.BestIndexSpec | poker-game.js:997-1012 | no best hand exactly when every rank is 0; otherwise the chosen index has the highest rank and is the first with it |
| HandEvaluator.ScanHighest | poker-game.js:1003-1009 | the forEach loop with a strict > keeps exactly that first highest-ranked item |
| HandEvaluator.FindBestHand | poker-game.js:997-1012 | as written: null exactly when every combination is high card, else a five-card combination whose rank no combination exceeds |
| HandEvaluator.BestByRankMeaning | poker-game.js:997-1012 | the same two facts about the selection function |
| HandEvaluator.SpreadFindsNothing | poker-game.js:997-1012 | cards of distinct, non-consecutive-in-five ranks, no five of a suit, yield null from findBestHand |
| HandEvaluator.SevenCardsFindNothing | poker-game.js:997-1012 | a concrete seven-card input for which findBestHand returns null |
| HandEvaluator.SpreadFiveHighCard | poker-game.js:1014-1025 | every five-card subset of such cards is ranked high card |
| HandEvaluator.FindBestHandIgnoresTiebreak | poker-game.js:997-1012 | from six hearts in a run, findBestHand returns the lower straight flush though the higher one has a larger key |
| HandEvaluator.SixHeartsIgnoresTiebreak | poker-game.js:997-1012 | the concrete case: 8 to K of hearts give 8–Q, not 9–K |
| HandEvaluator.WheelKeyedAceHigh | poker-game.js:1242-1243 | the wheel's key counts the ace as 14, above a six-high straight |
| HandEvaluator.WheelBeatsSixHigh | poker-game.js:1242-1243 | the concrete case: A-2-3-4-5 outkeys 2-3-4-5-6 in the same category |
| HandEvaluator.WheelOutranksSixHigh | poker-game.js:1242-1243 | a wheel and a six-high straight, neither a flush, both rank 4, and the wheel has the larger key |
| HandEvaluator.FixedKeepsOthers | poker-game.js:1213-1245 | the corrected key changes nothing but the wheel |
| HandEvaluator.FixedTiebreakDigits | poker-game.js:1213-1245 | the corrected key is base-100 digits too |
| HandEvaluator.NonWheelRun | poker-game.js:1051-1063 | a straight other than the wheel is a run starting at 2..10 |
| HandEvaluator.StraightKeyDigits | poker-game.js:1242-1243 | such a straight is keyed by its five values from the top down |
| HandEvaluator.WheelKeyBelow | poker-game.js:1242-1243 | the wheel keyed 5,4,3,2,1 is below every run starting at 2..10 |
| HandEvaluator.WheelLowestStraight | poker-game.js:1213-1245 | with the ace counted low, the wheel keys below every other straight |
| HandEvaluator.ScanGreatest | poker-game.js:1147-1150 | ordering by rank, then tiebreak: none when the list is empty, otherwise a member that no item beats |
| HandEvaluator.BestHand | poker-game.js:997-1012 | corrected: none exactly when fewer than five cards; otherwise a five-card combination that no combination beats on rank, then key |
| PokerGame.Larger | poker-game.js:1147-1150 | the larger of two scores is one of them and neither beats it |
| PokerGame.MaxScoreSpec | poker-game.js:1147-1152 | the best score is some item's score and no item's score beats it |
| PokerGame.UnbeatenScoresMax | poker-game.js:1147-1152 | an item that no item beats carries the best score |
| PokerGame.TopScoreSpec | poker-game.js:1129-1152 | no top score exactly when every seat has folded; otherwise it is some unfolded seat's score and beats none |
| PokerGame.WinnersSpec | poker-game.js:1155-1157 | the winners are exactly the unfolded seats scoring the top score, listed in seat order |
| PokerGame.SplitLeavesRemainder | poker-game.js:1158-1180 | n winners get floor(pot/n) each, paying out at most the pot and leaving pot mod n; a single winner gets the whole pot |
| PokerGame.Game.constructor | poker-game.js:81-116 | eight seats as initializePlayers lays them out, the human in seat 0, 8·1500 chips in play, an empty table in preflop |
| PokerGame.Game.StartNewGame | poker-game.js:400-430 | a new 52-card deck that is a permutation of the full deck, every seat's hand and flags cleared with its active flag kept; the blinds seat by seat: the seat after the dealer pays and bets 25, the next one 50, every other seat keeps its stack with no bet; 75 in the pot, the bet at the big blind and the turn at dealer+3; the chips in play plus the new pot equal the chips in play before, so an old pot (such as a split remainder) is dropped when the pot is set to 0 |
| PokerGame.Game.ResetThenBlinds | poker-game.js:403-430 | after the reset and the blinds every seat holds no cards, no flags, and keeps whether it is active; the small-blind seat has paid and bet 25, the big-blind seat 50, every other seat keeps its stack with no bet |
| PokerGame.Game.ResetTable | poker-game.js:403-420 | an empty pot and table in preflop; every seat loses cards, bet and flags and keeps its chips |
| PokerGame.Game.NewDeck | poker-game.js:425-426 | the deck is a permutation of the 52-card suit-major deck |
| PokerGame.Game.CreateDeck | poker-game.js:507-514 | the deck is the 52-card suit-major deck |
| PokerGame.Game.ShuffleDeck | poker-game.js:516-521 | the deck becomes a permutation of itself |
| PokerGame.Game.PostBlinds | poker-game.js:523-543 | seats dealer+1 and dealer+2 (mod 8) post 25 and 50 and nothing else changes; the pot grows by 75, the bet becomes 50, the turn passes to dealer+3; chips plus pot are conserved |
| PokerGame.Game.DealHoleCards | poker-game.js:545-563 | two passes, each active seat taking the top card per pass; the deck shrinks by two per active seat; the deck and the hands together hold the same cards as before; chips are unchanged |
| PokerGame.Game.StartBettingRound | poker-game.js:600-612 | the pot and the chips in play are unchanged; with two or more seats in play, every seat in play loses hasActed and no other seat field changes, and the turn moves to the first seat in play after the current one (every seat passed over is out of play); with fewer before the river, the round closes into the next street: one burn, then 3, 1 or 1 cards revealed in pop order, every bet zeroed, hasActed cleared for the seats in play and nothing else of a seat changed, the turn at the dealer |
| PokerGame.Game.NextPlayer | poker-game.js:614-642 | an open round only moves the turn, to the first seat in play after the current one (every seat passed over is out of play); a complete round before the river moves to the next street: one burn, then 3, 1 or 1 cards revealed in pop order, every bet zeroed and nothing else of a seat changed, the turn at the dealer; a complete river round leaves seats, deck, board and bet as they were |
| PokerGame.Game.CompleteBettingRound | poker-game.js:655-674 | preflop, flop and turn lead to flop, turn and river: one burn, then 3, 1 and 1 cards revealed in pop order, all bets zeroed, the turn at the dealer; from the river nothing changes |
| PokerGame.Game.DealStreet | poker-game.js:676-750 | the street's phase, the table and seat bets at 0, the turn at the dealer, one burned card and k revealed in pop order |
| PokerGame.Game.PlayerAction | poker-game.js:782-868 | chips plus pot are conserved; while the round stays open, the human's action has exactly the per-action effect stated for ApplyAction, the deck, board and phase are kept, and the turn moves to the first seat in play after the current one; when the action completes the round, it has that same effect, after which, before the river, the next street is dealt (one burn, 3, 1 or 1 cards revealed, every bet zeroed, the turn at the dealer) and, at the river, deck and board are kept |
| PokerGame.Game.ApplyAction | poker-game.js:789-862 | check with nothing owed only marks the human acted, and with a bet owed pays min(owed, chips); raise sets the bet to min(amount, chips+bet) and reopens the others; fold; all-in reopens only above the table bet; call and unknown names change nothing; chips plus pot are conserved |
| PokerGame.Game.DetermineWinner | poker-game.js:1128-1198 | each unfolded seat is scored by its best five cards; the winners are the seats tied at the top, each getting floor(pot/n); nothing else changes; nobody is paid when all have folded |
| PokerGame.Game.PayWinners | poker-game.js:1160-1181 | each listed winner gains the share, the rest keep their chips, and the total grows by share·n |
| PokerGame.RankSeats | poker-game.js:1129-1157 | the scores of the unfolded seats and the seats tied at the top score |
| PokerGame.ScoreHand | poker-game.js:1132-1134 | the loop over combinations computes the best score |
| PokerGame.ScoreSeats | poker-game.js:1129-1145 | every unfolded seat gets its best score from its cards plus the board |
| PokerGame.FindTop | poker-game.js:1147-1152 | the loop computes the top score |
| PokerGame.TiedWith | poker-game.js:1155-1157 | the loop collects exactly the winners |
| PokerServer.IndexOf | server.js:93 | findIndex: the first seat with the id, or none exactly when the id is absent |
| PokerServer.WithoutSeat | server.js:96-101 | splice: one seat fewer, the others in order, and the new first seat becomes host when the host left |
| PokerServer.ViewSeats | server.js:508-520 | one view per seat |
| PokerServer.ViewShowsOnlyOwnCards | server.js:505-530 | the snapshot shows a seat's cards only to that seat's own id; every other seat's cards show as [] |
| PokerServer.ViewIgnoresOthersCards | server.js:505-530 | changing another seat's cards does not change what a viewer sees |
| PokerServer.PokerRoom.BlindsFromTwoSeats | server.js:199-201 | with two or more seats, the small and big blinds come from different seats |
| PokerServer.PokerRoom.constructor | server.js:50-64 | an empty room in the waiting phase, not started |
| PokerServer.PokerRoom.AddPlayer | server.js:66-90 | fails with RoomFull once 8 are seated and changes nothing; otherwise appends one seat with 10000 chips, position = the prior count, host only when first |
| PokerServer.PokerRoom.RemovePlayer | server.js:92-107 | false and unchanged when the id is absent; otherwise exactly that seat is removed, the rest keep their order, and players[0] becomes host if the host left |
| PokerServer.PokerRoom.AddBots | server.js:109-136 | appends min(8 − seated, 7) bots named in order, each active, with 10000 chips, its position, no cards, no bet and no flag set; the existing seats are unchanged |
| PokerServer.PokerRoom.CreateDeck | server.js:170-177 | the deck is the 52-card suit-major deck |
| PokerServer.PokerRoom.ShuffleDeck | server.js:179-184 | the deck becomes a permutation of itself |
| PokerServer.PokerRoom.DealHoleCards | server.js:186-197 | two passes, one top card per active seat per pass; the deck shrinks by two per active seat; the deck and the hands together hold the same cards as before; nothing else in a seat changes |
| PokerServer.PokerRoom.PostBlinds | server.js:199-215 | seats (dealer+1) mod n and (dealer+2) mod n post 50 and 100; the pot grows by 150, the bet becomes 100, the turn is (BB+1) mod n; chips plus pot are conserved |
| PokerServer.PokerRoom.StartGame | server.js:138-168 | fails with fewer than 2 seated and changes nothing; otherwise preflop with the dealer at 0, each active seat holds 2 cards, the deck holds 52 − 2·active and with the hands makes up the full deck, seat 1 mod n pays and bets 50, seat 2 mod n pays and bets 100, every other seat keeps its stack with no bet, and the turn is (BB+1) mod n |
| PokerServer.PokerRoom.DealNewHand | server.js:145-165 | a new deck that with the hands dealt makes up the full deck, 2 cards per active seat, the small-blind seat paying and betting 50, the big-blind seat 100, every other seat keeping its stack with no bet, the pot up by 150 and the turn at (BB+1) mod n |
| PokerServer.PokerRoom.PrepareHand | server.js:145-162 | a new deck, every seat reset (stack kept, no bet and no flag set), two cards to each active seat; the deck and the hands make up the full deck |
| PokerServer.PokerRoom.NewDeck | server.js:148-149 | the deck is a permutation of the full deck |
| PokerServer.PokerRoom.PlayerAction | server.js:217-230 | anyone but the seat to act fails with NotYourTurn and changes nothing; for the seat to act, the action fails exactly in ProcessAction's three refusals, with that error and nothing changed; every accepted action has ProcessAction's effect on the seats, pot and bet, after which the rest of the hand keeps every hand, folded and all-in flag and stack, except that a showdown pays the pot to one seat that had not folded; an action that keeps a betting phase keeps deck and board and moves the turn to the first seat in play after the actor, which is in play; chips plus pot are conserved (or the pot has gone to a winner at showdown) |
| PokerServer.PokerRoom.ProcessAction | server.js:232-307 | rejected exactly for a check with a bet owed, a raise not above the bet, or an unknown action, changing nothing then; call pays min(owed, chips); raise and all-in as in the source, reopening the others; chips plus pot are conserved |
| PokerServer.PokerRoom.RaiseTo | server.js:260-277 | the bet becomes the target, the raiser pays the difference, the others are reopened |
| PokerServer.PokerRoom.GoAllIn | server.js:285-301 | the whole stack goes in; the bet rises, and the others are reopened, only when the all-in exceeds it |
| PokerServer.PokerRoom.NextPlayer | server.js:309-330 | while the round is open, only the turn moves, to the first seat in play after the current one (every seat passed over is out of play); otherwise the hand advances; phases never go back and revealed cards are kept; every hand, folded and all-in flag and stack is kept, except that a showdown pays the pot to one seat that had not folded |
| PokerServer.PokerRoom.CompleteBettingRound | server.js:343-359 | a betting street always advances the phase, the pot stays and revealed cards are kept; every hand, folded and all-in flag and stack is kept, except that a showdown pays the pot to one seat that had not folded |
| PokerServer.DealtOnAfter | server.js:361-384 | a deal that keeps every hand, flag and stack can be put in front of the rest of the hand: the hand played out after it still keeps them, or pays the pot to one seat that had not folded |
| PokerServer.PokerRoom.BeginRound | server.js:362-372 | the street's phase, the bets zeroed, hasActed cleared only for seats in play, the turn at the dealer |
| PokerServer.PokerRoom.BurnAndReveal | server.js:374-381 | one card burned, then k revealed in pop order |
| PokerServer.PokerRoom.DealFlop | server.js:361-384 | the board gains the three cards under the burned one; the hand then goes on without anyone acting, so every hand, folded and all-in flag and stack is kept, except that a showdown pays the pot to one seat that had not folded |
| PokerServer.PokerRoom.DealTurn | server.js:386-407 | the board gains the one card after a burn; the hand then goes on without anyone acting, so every hand, folded and all-in flag and stack is kept, except that a showdown pays the pot to one seat that had not folded |
| PokerServer.PokerRoom.DealRiver | server.js:409-430 | the board gains the one card after a burn; the hand then goes on without anyone acting, so every hand, folded and all-in flag and stack is kept, except that a showdown pays the pot to one seat that had not folded |
| PokerServer.PokerRoom.ShowDown | server.js:432-449 | the phase becomes showdown and one unfolded seat (chosen freely) gains the pot; nobody is paid when all have folded |
| PokerServer.PokerRoom.NextHand | server.js:443-446 | the dealer moves one seat on (mod n), then a new hand as StartNextHand deals it: an empty board, 2 cards per active seat and no folded or all-in seat, a deck of 52 − 2·active that with the hands makes up the full deck, the blinds (50 + 100) posted seat by seat from the new dealer, the bet at the big blind, the turn at (BB+1) mod n, chips plus pot conserved |
| PokerServer.PokerRoom.StartNextHand | server.js:451-475 | an empty pot and board, every seat reset, a new deck that with the hands makes up the full deck, 2 cards per active seat, the blinds posted seat by seat from the dealer, and the turn at (BB+1) mod n |
| PokerServer.PokerRoom.GetGameState | server.js:505-530 | the snapshot carries pot, board and turn, and each seat's cards only for the requesting id |
| Table.Drawn | poker-game.js:690-694 | the k revealed cards are the ones under the burned top card, in pop order |
| Table.BurnAndReveal | poker-game.js:687-697 | the deck loses its top k+1 cards and the board gains the k under the first |
| Table.PayConserves | poker-game.js:796-800 | paying moves chips from a stack onto its bet; stacks plus pot are conserved |
| Table.PostedBlindsSeats | poker-game.js:523-543 | only the two blind seats change, posting small and big, including when both are the same seat |
| Table.PostedBlindsTotal | poker-game.js:523-543 | the chips in play drop by small + big |
| Table.BlindsOnCleared | server.js:151-214 | blinds posted after the reset: the small-blind seat has paid and bet the small blind, the big-blind seat the big blind (both when one seat is both), every other seat keeps its stack with no bet |
| Table.PostBlind | poker-game.js:529-539 | posting one blind keeps the number of seats |
| Table.Reopen | poker-game.js:817-822 | every other seat not folded and not all-in must act again; nothing else changes |
| Table.ReopenedRound | poker-game.js:600-612 | once every seat in play must act again, the round is complete exactly when at most one seat is in play |
| Table.ReopenKeeps | poker-game.js:817-822 | a reopen changes neither chips nor the seats in play |
| Table.ReopenBlocksCompletion | poker-game.js:644-653 | after a reopen that leaves another seat in play, the round is not complete |
| Table.ClearBets | poker-game.js:683-685 | every seat's bet becomes 0 and nothing else changes |
| Table.ResetHands | poker-game.js:410-420 | cards, bet and flags are cleared in every seat and the chips are kept |
| Table.NextSeat | poker-game.js:614-621 | steps forward mod n, skipping seats out of play, at most n steps; lands on a seat in play whenever one exists |
| Table.BlindSeatsDiffer | server.js:199-201 | with two or more seats, the seats one and two after any seat differ |
| Table.DealPass | poker-game.js:547-561 | one pass deals the top card to each active seat in seat order |
| Table.DealTo | poker-game.js:549-558 | one seat takes the top card if active; the remaining seats are untouched |
| Table.DealHoleCards | server.js:186-197 | two passes: every active seat gains two cards, the deck loses 2·active cards from its top, the deck and the hands together hold the same cards as before, chips are unchanged |
| Table.DealKeepsCards | server.js:186-197 | the two passes move cards from the deck top into hands without losing or adding any |
| Manager.AfterIsNext | src/managers/GameManager.js:77-78 | the next seat is (i+1) mod 8 |
| Manager.LivePlayers | src/managers/GameManager.js:161 | the players able to act are exactly those neither folded nor all-in |
| Manager.LivePlayersCount | src/managers/GameManager.js:161 | the players able to act number as many as the seats in play |
| Manager.ScanSteps | src/managers/GameManager.js:133-138 | the do-while stops at the first seat able to act after the current one, or after 8 steps |
| Manager.AheadIsMod | src/managers/GameManager.js:135 | k steps on from a seat is (seat+k) mod 8 |
| Manager.ScanFindsLive | src/managers/GameManager.js:133-138 | when any seat can act, the scan lands on such a seat |
| Manager.GameManager.constructor | src/managers/GameManager.js:11-28 | no players, an empty deck, pot 0, the waiting phase, inactive and not paused |
| Manager.GameManager.InitializePlayers | src/managers/GameManager.js:30-44 | eight new players, seat i named and placed as in the config, human only in seat 0, 10000 chips each |
| Manager.GameManager.NewPlayer | src/managers/GameManager.js:35-41 | a fresh player for seat i, named and placed as in the config, human only in seat 0, with 10000 chips |
| Manager.GameManager.StartNewGame | src/managers/GameManager.js:46-74 | active and unpaused in preflop with an empty board; the blinds as Player.bet posts them (a short stack posts what it has) and the pot equal to what was posted; other seats keep their chips with no bet; two cards per active seat; the deck holds 52 − 2·active and with the hands makes up the full deck |
| Manager.GameManager.BeginHand | src/managers/GameManager.js:48-65 | the table reset, a new deck that is a permutation of the full deck, every hand empty, and the blinds posted seat by seat |
| Manager.GameManager.Prepare | src/managers/GameManager.js:58-65 | the players reset, the deck rebuilt as a permutation of the full deck, and the blinds posted seat by seat |
| Manager.GameManager.Open | src/managers/GameManager.js:48-55 | active, unpaused, an empty pot and board, preflop, bet 0 |
| Manager.GameManager.NewDeck | src/managers/GameManager.js:61-62 | 52 cards forming a permutation of the full deck |
| Manager.GameManager.ResetPlayers | src/managers/GameManager.js:58 | every player is reset |
| Manager.GameManager.PostBlinds | src/managers/GameManager.js:76-94 | seats dealer+1 and dealer+2 pay min(blind, chips) through bet, the pot grows by exactly that, other seats are untouched, the bet is 100 and the turn dealer+3 |
| Manager.GameManager.PostBlind | src/managers/GameManager.js:81-86 | one seat bets the blind and the pot takes what it paid |
| Manager.GameManager.DealHoleCards | src/managers/GameManager.js:96-111 | every active player gains two cards; the deck loses 2·active cards from its top into the discard pile; the deck and the hands together hold the same cards as before |
| Manager.GameManager.DealFresh | src/managers/GameManager.js:68 | from a full deck and empty hands: two cards per active player, and the deck and the hands make up the full deck |
| Manager.GameManager.DealConserves | src/managers/GameManager.js:96-111 | the cards the two passes leave in the deck plus the hands dealt are the cards before the deal plus the earlier hands |
| Manager.GameManager.DealHands | src/managers/GameManager.js:96-111 | each player's hand is the one the two passes deal |
| Manager.GameManager.DealPass | src/managers/GameManager.js:98-110 | one pass over the eight seats |
| Manager.GameManager.DealTo | src/managers/GameManager.js:99-103 | one active seat takes the top card; the other hands are unchanged |
| Manager.GameManager.IsBettingRoundComplete | src/managers/GameManager.js:160-169 | complete when at most one player can act; incomplete while one who can act has not acted or has not matched the bet |
| Manager.GameManager.RoundCompleteAgrees | src/managers/GameManager.js:160-169 | the test agrees with the seat-list test of the other two engines |
| Manager.GameManager.ReopenOthers | src/managers/GameManager.js:324-328 | every other player able to act loses hasActed; nobody else changes |
| Manager.GameManager.AdvanceTurn | src/managers/GameManager.js:133-138 | the turn moves to the scan's seat; whether the round is complete does not change |
| Manager.GameManager.ClearBets | src/managers/GameManager.js:197-200 | every player's bet becomes 0 |
| Manager.GameManager.BurnAndReveal | src/managers/GameManager.js:202-212 | one burned, k dealt onto the board, in pop order, all k+1 into the discard pile |
| Manager.GameManager.DealStreet | src/managers/GameManager.js:192-212 | the street's phase, the bets zeroed, the turn at the dealer, burn and reveal |
| Manager.GameManager.DealFlop | src/managers/GameManager.js:192-217 | from preflop: the flop, three cards on the board |
| Manager.GameManager.DealTurn | src/managers/GameManager.js:219-238 | from the flop: the turn, four cards on the board |
| Manager.GameManager.DealRiver | src/managers/GameManager.js:240-259 | from the turn: the river, five cards on the board |
| Manager.GameManager.EnterShowdown | src/managers/GameManager.js:261-262 | from the river: the showdown |
| Manager.GameManager.CompleteBettingRound | src/managers/GameManager.js:171-190 | the phase moves preflop→flop→turn→river→showdown with the street dealt; other phases stay |
| Manager.GameManager.NextPlayer | src/managers/GameManager.js:129-158 | nothing while inactive or paused; an open round only moves the turn to the scan's seat (the first player able to act after the current one); a complete one closes the round and the phase advances |
| Manager.GameManager.StartBettingRound | src/managers/GameManager.js:113-127 | nothing while inactive or paused; every player able to act loses hasActed; then the turn moves, or the round closes when at most one can act |
| Manager.GameManager.ReopenRound | src/managers/GameManager.js:119-124 | that reset, after which the round is open when two or more can act |
| Manager.GameManager.CheckOrCall | src/managers/GameManager.js:305-314 | with nothing owed only a check; otherwise a call of the amount owed, the pot growing by exactly what call returns; a covering stack matches the bet, a short one goes all in |
| Manager.GameManager.RaiseTo | src/managers/GameManager.js:316-329 | the bet becomes min(amount, chips + bet), the player's bet matches it, the pot takes what was paid, and every other player able to act is reopened |
| Manager.GameManager.FoldTurn | src/managers/GameManager.js:331-334 | the player folds |
| Manager.GameManager.GoAllIn | src/managers/GameManager.js:336-348 | the stack goes in; the bet rises and the others are reopened only when the player's bet exceeds it |
| Manager.GameManager.ApplyAction | src/managers/GameManager.js:301-349 | only the actor's chips move, into the pot; check with nothing owed only marks the actor acted, and with a bet owed calls min(owed, chips), matching the bet or going all in; raise sets the bet to min(amount, chips + bet), the actor matching it, and reopens every other player able to act; fold; all-in puts the stack in and reopens the others only when the actor's bet exceeds the old bet; call and unknown names change nothing |
| Manager.GameManager.ProcessPlayerAction | src/managers/GameManager.js:298-355 | nothing while inactive or paused; otherwise the stacks, pot and flags move as ApplyAction states for the actor (the pot gains exactly what the actor lost, no other stack moves), and the phase stays or advances one street; when the phase stays, the action has ApplyAction's whole effect and the turn moves to the first player able to act after the actor; at the river the whole effect holds with board and deck kept; when the phase advances from preflop, flop or turn, the next street is dealt from the old deck (one burn, 3, 1 or 1 cards), every bet is zeroed and the turn is at the dealer |
| Manager.GameManager.TakeTurn | src/managers/GameManager.js:301-354 | the action, then the turn change: the stacks, pot and flags move as ApplyAction states for the actor, and no other stack moves; when the phase stays, the action has ApplyAction's whole effect and the turn is the first player able to act after the actor; at the river the whole effect holds with board and deck kept; when the phase advances from preflop, flop or turn, the next street is dealt from the old deck, every bet zeroed and the turn at the dealer |
| Manager.GameManager.PassTurn | src/managers/GameManager.js:354 | the nextPlayer step after an action: no stack, pot or flag changes; the phase stays or advances; when it stays, or at the river, no bet, board or deck changes, and when it stays the turn moves to the scan's seat; when it advances from preflop, flop or turn, the next street is dealt from the old deck, every bet zeroed and the turn at the dealer |
| Manager.GameManager.PauseGame | src/managers/GameManager.js:392-395 | paused |
| Manager.GameManager.ResumeGame | src/managers/GameManager.js:397-400 | not paused |
| Manager.GameManager.ContinueGame | src/managers/GameManager.js:416-422 | the dealer moves one seat on mod 8, then a new hand as StartNewGame deals it: preflop with an empty board, the blinds posted from the new dealer as Player.bet posts them and the pot equal to what was posted, other seats keep their chips with no bet, no folded seat, two cards per active seat, a deck of 52 − 2·active that with the hands makes up the full deck |
| Manager.GameManager.DrawTop | src/managers/GameManager.js:102 | deck.deal takes the top card into the discard pile |
| SimpleServer.NewRoom | simple-server.js:38-48 | the creator is the only player, marked host, the room's host, and the game not started |
| SimpleServer.IndexOf | simple-server.js:117 | findIndex: the first position with the id, or −1 exactly when absent |
| SimpleServer.Join | simple-server.js:66-75 | succeeds exactly below 8 players, appending one non-host player at the end; otherwise RoomFull; host-first rooms stay host-first |
| SimpleServer.Start | simple-server.js:91-104 | succeeds exactly for the host with 2 or more players before the start, setting gameStarted and nothing else; a non-host gets NotAuthorized and the host of a room with fewer than 2 gets TooFewPlayers |
| SimpleServer.Leave | simple-server.js:120-131 | splice; none exactly when the last player left; otherwise the other members, unchanged and in their order, and, if the host left, the new first member marked host |
| SimpleServer.LeaveKeepsHost | simple-server.js:127-131 | after a departure the room again has its host first and marked |
| SimpleServer.FirstRoomWith | simple-server.js:116-119 | the first room, in creation order, that holds the socket |
| SimpleServer.Lobby.constructor | simple-server.js:30 | no rooms |
| SimpleServer.Lobby.CreateRoom | simple-server.js:37-55 | the new room is stored under its id; the registry invariant is kept |
| SimpleServer.Lobby.JoinRoom | simple-server.js:58-86 | RoomNotFound for an unknown id; otherwise the outcome of Join is stored and the player list returned |
| SimpleServer.Lobby.StartGame | simple-server.js:89-109 | NotAuthorized for an unknown id; otherwise the outcome of Start |
| SimpleServer.Lobby.Disconnect | simple-server.js:112-141 | the player leaves the first room holding them; that room is deleted when empty, otherwise updated; no other room changes |
| SimpleServer.Lobby.LeaveRoom | simple-server.js:119-131 | the departure from one room |
| SimpleServer.RemoveKeepsRegistry | simple-server.js:123-124 | deleting a room keeps the registry consistent |
| SimpleServer.RemoveAt | simple-server.js:124 | removing one room id from the creation order keeps the ids distinct and drops exactly that id |
| Utils.ShuffleArray | src/utils/Utils.js:31-37 | permutes the array in place and returns the same array |
| Utils.Clamp | src/utils/Utils.js:42-44 | with lo ≤ hi the result lies in [lo, hi]; a value inside is returned unchanged, one outside is cut to the nearer bound |
| Utils.Chunk | src/utils/Utils.js:350-356 | with size > 0 the chunks concatenate to the input, none is empty, each has at most size elements, and all but the last have exactly size |
| Utils.Unique | src/utils/Utils.js:358-360 | the same elements, each once |
| Utils.UniqueKeepsOrder | src/utils/Utils.js:358-360 | the elements in order of first occurrence |
| Utils.FirstIndex | src/utils/Utils.js:358-360 | the first position of a value present in the array |
| Utils.FlattenAppend | src/utils/Utils.js:362-365 | flattening distributes over concatenation |
| Utils.FlattenFromLeft | src/utils/Utils.js:363-364 | the reduce takes items from left to right |
| Utils.FlattenFlat | src/utils/Utils.js:362-365 | a list of plain values flattens to itself, in order |
| Utils.Leaves | src/utils/Utils.js:362-365 | plain values as leaf items, one per value |
| Utils.ShowInt | src/utils/Utils.js:153-157 | decimal printing of an integer, with a minus sign for negatives |
| Utils.ReadShowNat | src/utils/Utils.js:153-157 | reading a printed number gives it back |
| Utils.ReadHours | src/utils/Utils.js:153-157 | reading back an h/m/s text gives h·3600 + m·60 + s seconds |
| Utils.FormatDuration | src/utils/Utils.js:147-159 | the text is non-empty and ends with the seconds unit; its layout is stated by FormatDurationLayout |
| Utils.FormatDurationReadsBack | src/utils/Utils.js:147-159 | reading back the h/m/s text gives floor(ms/1000) seconds: the printed units add up to the duration |
| Utils.FormatDurationLayout | src/utils/Utils.js:147-159 | 'h' appears exactly from 3600 s on and 'm' exactly from 60 s on; the text is "Hh Mm Ss" with M and S below 60, "Mm Ss" with S below 60, or "Ss" |
| Utils.Trim | src/utils/Utils.js:166 | the trimmed string is empty exactly when all is whitespace; otherwise it starts and ends with a non-space |
| Utils.IsEmpty | src/utils/Utils.js:164-170 | true for null or undefined, whitespace-only strings, empty arrays and key-less objects; false for booleans and numbers |
| Utils.ToUpper | src/utils/Utils.js:177 | a lower-case letter maps to its upper case, which lowers back to it; anything else is unchanged |
| Utils.ToLower | src/utils/Utils.js:177 | an upper-case letter maps to lower case; anything else is unchanged |
| Utils.Capitalize | src/utils/Utils.js:175-178 | the first character upper-cased, the rest lower-cased, the length kept |
| Utils.CamelToSnake | src/utils/Utils.js:183-185 | no upper-case letter survives, and the text does not shrink |
| Utils.SnakeToCamel | src/utils/Utils.js:190-192 | the text does not grow |
| Utils.CamelSnakeRoundTrip | src/utils/Utils.js:183-192 | for text without '_', snakeToCamel(camelToSnake(s)) == s |
| Utils.SnakeCamelRoundTrip | src/utils/Utils.js:183-192 | for snake-case text, camelToSnake(snakeToCamel(s)) == s |

## Left out

- Rendering, animation, sound, input and the DOM are left out. This covers Phaser scenes, tweens, notifications, the settings menu, the `update*Display` calls, `SystemManagers.js` and the UI components. They hold no rules.
- Socket.IO and Express wiring and what the handlers emit to sockets are left out. In the lobby, a handler's emitted result is the value its method returns.
- In `server.js`, the `disconnect` handler splices the player out and then calls `removePlayer`, which no longer finds them. Only `removePlayer`'s own room logic is modelled, as `PokerRoom.RemovePlayer`.
- Timers are left out. Each `setTimeout` callback is a step that the caller runs next.
- `PokerGame.Game.DetermineWinner`: after the payout the source calls `this.updateStatistics()` (poker-game.js:1192). The class defines no such method: it has only `updateGameStatistics` and `updateStats`, and it extends nothing. As written, that call throws a TypeError, so the 5-second timer that starts the next hand (poker-game.js:1195-1197) is never set. The model ends the hand with the payout, and the next hand starts only when `StartNewGame` is called.
- Random decisions are not modelled as random:
  - The shuffles are modelled as "some permutation".
  - Bot policies (`botAction`, `processBotAction`) are not modelled.
  - The random winner of `server.js` showdown is any unfolded seat.
  - Room ids and bot UUIDs are parameters or are left out.
- `GameManager.determineWinner` picks its winner at random and `endGame` returns to the menu. Neither is modelled: the model stops at `EnterShowdown`. The games-played and games-won statistics are not modelled either.
- `PokerServer.PokerRoom.ShowDown`: in the source, a table with every seat folded has no winner and the JavaScript fails with a TypeError. The model returns no winner and pays nobody.
- `PokerGame.Game.DetermineWinner` scores hands by the corrected evaluator (see Findings), not by `findBestHand` as written. Win and loss notifications and statistics are not modelled.
- `PokerGame.Game.DetermineWinner`: when every seat has folded, the source reads `winner.player` of an empty list and fails with a TypeError. The model pays nobody and leaves the pot in place.
- `PokerServer.PokerRoom.PlayerAction`: when the turn index is past the last seat (possible after a player leaves mid-hand, since `removePlayer` never moves the turn), the source fails with a TypeError reading the seat's id. The model returns NotYourTurn and changes nothing.
- `Subsets.Combinations` requires a size of at least 1. For a size below 1 the recursion of `getCombinations` never reaches its base case; the only caller asks for 5.
- `Cards.FromJson` returns none for a suit or rank name outside the configured lists. `Card.fromJSON` builds a card from whatever the object holds.
- Floating-point heuristics (`evaluatePreFlop`, `getHandStrength`) and the blind-level, ante and side-pot fields are left out. The side pots are never computed in the source.
- Chips are unbounded integers. JavaScript numbers are floats, but every amount here is an integer far below 2^53.
- `Utils.Trim`: only ASCII whitespace, U+00A0 and U+FEFF count as space. The other Unicode spaces of `String.prototype.trim` are not modelled.
- `Utils.ToUpper`: case mapping covers A–Z only. Other letters keep their case. The same applies to `Utils.ToLower` and `Utils.Capitalize`.
- `Utils.Chunk`: the model requires size > 0. In the source, a size of 0 or less makes the loop run forever (or return nothing).
- `Utils.FormatDuration`: its own contract only fixes the final unit. The layout is stated by `Utils.FormatDurationLayout` and the total by `Utils.FormatDurationReadsBack`, both for non-negative durations only; the text for a negative duration is not characterised.
- `Utils.Unique` and `Utils.FirstIndex` compare by value. JavaScript's `Set` compares objects by reference.
- `Utils.IsEmpty`: `JsValue` models the JavaScript value shapes. An object is its key list.
- Other `Utils.js` helpers are left out because they are browser, clock, randomness or float code and hold none of the game's rules:
  - randomness: `randomBetween`, `randomFromArray`, `generateUUID`;
  - clocks and timers: `timestamp`, `wait`, `retry`, `debounce`, `throttle`;
  - floating point: `formatCurrency`, `lerp`, `distance`, the angle helpers, the colour conversions;
  - browser and runtime: storage, device detection, `deepClone`, the event emitter;
  - `isValidEmail`, a regular-expression test that no game code calls.
- `SimpleServer.Lobby.CreateRoom`: the random room id is a parameter. A clash with an existing id overwrites that room, as `Map.set` does.
- Lobby rooms are values in the lobby's map rather than shared objects. No other code holds a reference to a room, so nothing is lost.
- `PokerGame.Game.ApplyAction` and `Manager.GameManager.RaiseTo`: a raise below the player's own bet is not refused, and the difference flows back from the bet to the stack. The model keeps this quirk of the source.
- `HandEvaluator.MaxOf`: on an empty list the model gives 0 where `Math.max()` gives −Infinity. The tiebreak only calls it on the pair ranks of a two-pair hand, which are never empty.
- `HandEvaluator.HandRank`: the counts of `getRankCounts` are kept in first-occurrence order. Object key order in JavaScript depends on the keys being integer-like. Every use in the rules is order-independent, except which rank `find` returns first among equal counts, and at most one rank can have each count that matters.

## Findings

| source | as written | input that shows it | evidently intended | confidence | as-written member | corrected member |
|---|---|---|---|---|---|---|
| poker-game.js:1000-1009 | `bestRank` starts at 0 and only a strictly greater rank replaces it, so when every combination is high card `findBestHand` returns `null`, which `getHandRank` and `getTiebreaker` then read | 2♥ 4♦ 6♣ 8♠ 10♥ Q♦ A♣ (no pair, flush or straight) | the best of the combinations, which exists whenever there are five cards | high; not executed | HandEvaluator.SevenCardsFindNothing | HandEvaluator.BestHand |
| poker-game.js:1003-1009 | `findBestHand` compares ranks only, so of two hands of the same rank it keeps the first, even when a later one has a higher tiebreak key | 8♥ 9♥ 10♥ J♥ Q♥ K♥: it returns the 8–Q straight flush, not 9–K | the combination that is best by rank, then by tiebreak key, as the showdown orders hands | high; not executed | HandEvaluator.SixHeartsIgnoresTiebreak | HandEvaluator.BestHand |
| poker-game.js:1242-1243 | the default tiebreak keys the five values high to low, so the wheel A-2-3-4-5 is keyed with 14 first | A♠ 2♥ 3♦ 4♣ 5♠ against 2♥ 3♦ 4♣ 5♠ 6♥: the wheel gets the higher key | the wheel is the lowest straight, with the ace counted as 1 | high; not executed | HandEvaluator.WheelBeatsSixHigh | HandEvaluator.WheelLowestStraight |
