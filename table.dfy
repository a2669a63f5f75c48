/** The seat record and the seat-list steps that the single-player engine
    (poker-game.js) and the room server (server.js) share: both keep their
    players as plain records in a list and walk that list the same way. */
module Table {
  import opened Cards

  /** The phases of a hand, in the order they are played. */
  datatype Phase = Waiting | Preflop | Flop | Turn | River | Showdown

  /** The action strings the engines understand; anything else is Unknown. */
  datatype Action = Check | Call | Raise | Fold | AllIn | Unknown

  /** One player as the engines store it. */
  datatype Seat = Seat(
    id: string, name: string, chips: int, cards: seq<Card>,
    isHuman: bool, isBot: bool, isHost: bool, isActive: bool,
    hasActed: bool, currentBet: int, isAllIn: bool, isFolded: bool,
    position: int)

  /** How many phases a hand still has to go through. */
  function PhasesLeft(p: Phase): nat {
    match p
    case Waiting => 5
    case Preflop => 4
    case Flop => 3
    case Turn => 2
    case River => 1
    case Showdown => 0
  }

  /** The cards a hand in this phase will still burn and reveal: a burn and
      three for the flop, a burn and one each for the turn and the river. */
  function CardsStillNeeded(p: Phase): nat {
    match p
    case Preflop => 8
    case Flop => 4
    case Turn => 2
    case _ => 0
  }

  /** Community cards on the table once a phase has begun: three after the
      flop, one more after the turn and after the river. */
  function Revealed(p: Phase): nat {
    match p
    case Flop => 3
    case Turn => 4
    case River => 5
    case Showdown => 5
    case _ => 0
  }

  /** Cards taken from the deck once a phase has begun: each reveal is
      preceded by one burnt card. */
  function Used(p: Phase): nat {
    match p
    case Flop => 4
    case Turn => 6
    case River => 8
    case Showdown => 8
    case _ => 0
  }

  /** The k cards revealed after burning the top card, in the order they
      are popped. */
  function Drawn(deck: seq<Card>, k: nat): (d: seq<Card>)
    requires |deck| >= k + 1
    ensures |d| == k
    ensures forall i :: 0 <= i < k ==> d[i] == deck[|deck| - 2 - i]
  {
    if k == 0 then [] else Drawn(deck, k - 1) + [deck[|deck| - 1 - k]]
  }

  /** A street of either engine: one pop to burn, then k pops onto the
      table. */
  method BurnAndReveal(deck: seq<Card>, community: seq<Card>, k: nat)
    returns (rest: seq<Card>, shown: seq<Card>)
    requires |deck| >= k + 1
    ensures rest == deck[..|deck| - k - 1]
    ensures shown == community + Drawn(deck, k)
  {
    rest := deck[..|deck| - 1];
    shown := community;
    var i := 0;
    while i < k
      invariant 0 <= i <= k
      invariant rest == deck[..|deck| - 1 - i]
      invariant shown == community + Drawn(deck, i)
    {
      var card := rest[|rest| - 1];
      rest := rest[..|rest| - 1];
      shown := shown + [card];
      i := i + 1;
    }
  }

  /** Neither folded nor all-in: a seat that still has decisions to make. */
  predicate InPlay(s: Seat) {
    !s.isFolded && !s.isAllIn
  }

  // ---------------------------------------------------------------------
  // Chips

  function TotalChips(ps: seq<Seat>): int {
    if ps == [] then 0 else ps[0].chips + TotalChips(ps[1..])
  }

  /** Replacing one seat changes the total by that seat's change of stack. */
  lemma {:induction false} TotalChipsUpdate(ps: seq<Seat>, i: nat, s: Seat)
    requires i < |ps|
    ensures TotalChips(ps[i := s]) == TotalChips(ps) - ps[i].chips + s.chips
    decreases |ps|
  {
    if i == 0 {
      assert ps[i := s][1..] == ps[1..];
    } else {
      TotalChipsUpdate(ps[1..], i - 1, s);
      assert ps[i := s][1..] == ps[1..][i - 1 := s];
    }
  }

  /** Seat lists with the same stacks hold the same chips. */
  lemma {:induction false} SameStacks(ps: seq<Seat>, qs: seq<Seat>)
    requires |ps| == |qs|
    requires forall i :: 0 <= i < |ps| ==> ps[i].chips == qs[i].chips
    ensures TotalChips(ps) == TotalChips(qs)
    decreases |ps|
  {
    if ps != [] {
      SameStacks(ps[1..], qs[1..]);
    }
  }

  /** Appending a seat adds its stack to the total. */
  lemma {:induction false} TotalChipsAppend(ps: seq<Seat>, s: Seat)
    ensures TotalChips(ps + [s]) == TotalChips(ps) + s.chips
    decreases |ps|
  {
    if ps == [] {
      assert [s][1..] == [];
    } else {
      TotalChipsAppend(ps[1..], s);
      assert (ps + [s])[1..] == ps[1..] + [s];
    }
  }
  /** Moves amount from the stack to the bet in front of the seat; the seat
      has acted, and is all-in once its stack is empty. Calls, raises and
      all-ins of both engines are this one move. */
  function Pay(s: Seat, amount: int): Seat {
    s.(chips := s.chips - amount, currentBet := s.currentBet + amount,
       hasActed := true, isAllIn := s.isAllIn || s.chips - amount == 0)
  }

  /** Paying keeps the seat's chips plus its bet, and the table's chips plus
      the pot, where the pot grows by the amount paid. */
  lemma PayConserves(ps: seq<Seat>, i: nat, amount: int, pot: int)
    requires i < |ps|
    ensures Pay(ps[i], amount).chips + Pay(ps[i], amount).currentBet
            == ps[i].chips + ps[i].currentBet
    ensures TotalChips(ps[i := Pay(ps[i], amount)]) + (pot + amount) == TotalChips(ps) + pot
  {
    TotalChipsUpdate(ps, i, Pay(ps[i], amount));
  }

  /** Both blinds, posted without a look at the stacks: seat sb puts in
      the small blind, then seat bb the big blind. */
  function PostedBlinds(ps: seq<Seat>, sb: nat, bb: nat, small: int, big: int): seq<Seat>
    requires sb < |ps| && bb < |ps|
  {
    PostBlind(PostBlind(ps, sb, small), bb, big)
  }

  /** Seat i bets `blind`, paid from its stack. */
  function PostBlind(ps: seq<Seat>, i: nat, blind: int): (r: seq<Seat>)
    requires i < |ps|
    ensures |r| == |ps|
  {
    ps[i := ps[i].(currentBet := blind, chips := ps[i].chips - blind)]
  }

  /** Each blind seat pays its blind and bets it; when both blinds fall on
      one seat it pays both and bets the big blind. No other seat changes. */
  lemma PostedBlindsSeats(ps: seq<Seat>, sb: nat, bb: nat, small: int, big: int)
    requires sb < |ps| && bb < |ps|
    ensures var r := PostedBlinds(ps, sb, bb, small, big);
      && |r| == |ps|
      && (sb != bb ==> r[sb] == ps[sb].(chips := ps[sb].chips - small, currentBet := small))
      && r[bb] == ps[bb].(chips := ps[bb].chips - (if sb == bb then small + big else big), currentBet := big)
      && (forall j :: 0 <= j < |ps| && j != sb && j != bb ==> r[j] == ps[j])
  {
  }

  /** The seats after the blinds, from the seats before the hand: seat sb has paid
      and bet the small blind, seat bb the big blind, and every other seat keeps its
      stack with no bet. */
  ghost predicate BlindsPaid(before: seq<Seat>, after: seq<Seat>, sb: nat, bb: nat, small: int, big: int)
  {
    && |after| == |before|
    && forall j :: 0 <= j < |after| ==>
         && after[j].chips == before[j].chips - (if j == sb then small else 0) - (if j == bb then big else 0)
         && after[j].currentBet == (if j == bb then big else if j == sb then small else 0)
  }

  /** Blinds posted on seats whose bets were cleared: the small blind seat pays and
      bets the small blind, the big blind seat pays and bets the big blind, and every
      other seat keeps its stack with no bet. */
  lemma BlindsOnCleared(before: seq<Seat>, ps: seq<Seat>, sb: nat, bb: nat, small: int, big: int)
    requires |ps| == |before| && sb < |ps| && bb < |ps|
    requires forall j :: 0 <= j < |ps| ==> ps[j].chips == before[j].chips && ps[j].currentBet == 0
    ensures BlindsPaid(before, PostedBlinds(ps, sb, bb, small, big), sb, bb, small, big)
  {
    PostedBlindsSeats(ps, sb, bb, small, big);
  }

  /** Posting the blinds changes only stacks and bets. */
  lemma PostedBlindsFields(ps: seq<Seat>, sb: nat, bb: nat, small: int, big: int)
    requires sb < |ps| && bb < |ps|
    ensures var r := PostedBlinds(ps, sb, bb, small, big);
      && |r| == |ps|
      && forall j :: 0 <= j < |ps| ==> r[j] == ps[j].(chips := r[j].chips, currentBet := r[j].currentBet)
  {
    var ps1 := PostBlind(ps, sb, small);
    var r := PostBlind(ps1, bb, big);
    forall j | 0 <= j < |ps|
      ensures r[j] == ps[j].(chips := r[j].chips, currentBet := r[j].currentBet)
    {
      PostBlindKeeps(ps, sb, small, j);
      PostBlindKeeps(ps1, bb, big, j);
    }
  }

  lemma PostBlindKeeps(ps: seq<Seat>, i: nat, blind: int, j: nat)
    requires i < |ps| && j < |ps|
    ensures var r := PostBlind(ps, i, blind);
      r[j] == ps[j].(chips := r[j].chips, currentBet := r[j].currentBet)
  {
  }

  /** Posting the blinds takes exactly the two blinds from the stacks. */
  lemma PostedBlindsTotal(ps: seq<Seat>, sb: nat, bb: nat, small: int, big: int)
    requires sb < |ps| && bb < |ps|
    ensures TotalChips(PostedBlinds(ps, sb, bb, small, big)) == TotalChips(ps) - small - big
  {
    var ps1 := PostBlind(ps, sb, small);
    TotalChipsUpdate(ps, sb, ps1[sb]);
    TotalChipsUpdate(ps1, bb, PostBlind(ps1, bb, big)[bb]);
  }

  function Min(a: int, b: int): int {
    if a < b then a else b
  }

  // ---------------------------------------------------------------------
  // Betting round

  function CountInPlay(ps: seq<Seat>): (n: nat)
    ensures n <= |ps|
  {
    if ps == [] then 0 else (if InPlay(ps[0]) then 1 else 0) + CountInPlay(ps[1..])
  }

  /** isBettingRoundComplete: at most one seat is still in play, or every
      seat in play has acted and matched the table's bet. */
  predicate RoundComplete(ps: seq<Seat>, currentBet: int) {
    CountInPlay(ps) <= 1
    || ((forall i :: 0 <= i < |ps| && InPlay(ps[i]) ==> ps[i].hasActed)
        && (forall i :: 0 <= i < |ps| && InPlay(ps[i]) ==> ps[i].currentBet == currentBet))
  }

  lemma {:induction false} CountInPlaySame(ps: seq<Seat>, qs: seq<Seat>)
    requires |ps| == |qs|
    requires forall i :: 0 <= i < |ps| ==> InPlay(ps[i]) == InPlay(qs[i])
    ensures CountInPlay(ps) == CountInPlay(qs)
    decreases |ps|
  {
    if ps != [] {
      CountInPlaySame(ps[1..], qs[1..]);
    }
  }

  /** Two seats in play, at different positions, make a count of two. */
  lemma {:induction false} TwoInPlay(ps: seq<Seat>, i: nat, j: nat)
    requires i < |ps| && j < |ps| && i != j && InPlay(ps[i]) && InPlay(ps[j])
    ensures CountInPlay(ps) >= 2
    decreases |ps|
  {
    if i == 0 {
      OneInPlay(ps[1..], j - 1);
    } else if j == 0 {
      OneInPlay(ps[1..], i - 1);
    } else {
      TwoInPlay(ps[1..], i - 1, j - 1);
    }
  }

  lemma {:induction false} OneInPlay(ps: seq<Seat>, i: nat)
    requires i < |ps| && InPlay(ps[i])
    ensures CountInPlay(ps) >= 1
    decreases |ps|
  {
    if i > 0 {
      OneInPlay(ps[1..], i - 1);
    }
  }

  /** A count of one or more has a seat in play to show for it. */
  lemma {:induction false} SomeInPlay(ps: seq<Seat>) returns (i: nat)
    requires CountInPlay(ps) >= 1
    ensures i < |ps| && InPlay(ps[i])
    decreases |ps|
  {
    if InPlay(ps[0]) {
      i := 0;
    } else {
      var k := SomeInPlay(ps[1..]);
      i := k + 1;
    }
  }

  /** The seats after a raise by seat actor (or, with actor outside the
      list, at the start of a round): every other seat in play must act
      again; nothing else changes. */
  predicate ReopenedFrom(ps: seq<Seat>, r: seq<Seat>, actor: int) {
    && |r| == |ps|
    && forall j :: 0 <= j < |ps| ==>
         r[j] == if j != actor && InPlay(ps[j]) then ps[j].(hasActed := false) else ps[j]
  }

  /** A round opened for everyone is complete exactly when at most one seat
      is in play. */
  lemma ReopenedRound(ps: seq<Seat>, r: seq<Seat>, bet: int)
    requires ReopenedFrom(ps, r, -1)
    ensures CountInPlay(r) == CountInPlay(ps)
    ensures RoundComplete(r, bet) <==> CountInPlay(ps) <= 1
  {
    CountInPlaySame(ps, r);
    if CountInPlay(ps) >= 2 {
      var i := SomeInPlay(r);
      assert !r[i].hasActed;
    }
  }

  /** The forEach that clears hasActed for every other seat in play. */
  method Reopen(ps: seq<Seat>, actor: int) returns (r: seq<Seat>)
    ensures ReopenedFrom(ps, r, actor)
  {
    r := ps;
    var j := 0;
    while j < |ps|
      invariant 0 <= j <= |ps| && |r| == |ps|
      invariant forall k :: 0 <= k < j ==>
        r[k] == if k != actor && InPlay(ps[k]) then ps[k].(hasActed := false) else ps[k]
      invariant forall k :: j <= k < |ps| ==> r[k] == ps[k]
    {
      if j != actor && InPlay(r[j]) {
        r := r[j := r[j].(hasActed := false)];
      }
      j := j + 1;
    }
  }

  /** Reopening moves no chips and takes no seat out of play. */
  lemma ReopenKeeps(ps: seq<Seat>, r: seq<Seat>, actor: int)
    requires ReopenedFrom(ps, r, actor)
    ensures TotalChips(r) == TotalChips(ps)
    ensures CountInPlay(r) == CountInPlay(ps)
  {
    SameStacks(ps, r);
    CountInPlaySame(ps, r);
  }

  /** A raise while another seat is still in play leaves the round open:
      that seat has to answer it. */
  lemma ReopenBlocksCompletion(ps: seq<Seat>, r: seq<Seat>, actor: nat, other: nat, bet: int)
    requires ReopenedFrom(ps, r, actor)
    requires actor < |ps| && other < |ps| && other != actor
    requires InPlay(r[actor]) && InPlay(ps[other])
    ensures !RoundComplete(r, bet)
  {
    assert InPlay(r[other]) && !r[other].hasActed;
    TwoInPlay(r, actor, other);
  }

  /** The start of every later betting round: each seat's bet goes back
      to zero. */
  method ClearBets(ps: seq<Seat>) returns (r: seq<Seat>)
    ensures |r| == |ps|
    ensures forall j :: 0 <= j < |ps| ==> r[j] == ps[j].(currentBet := 0)
  {
    r := ps;
    var j := 0;
    while j < |ps|
      invariant 0 <= j <= |ps| && |r| == |ps|
      invariant forall k :: 0 <= k < j ==> r[k] == ps[k].(currentBet := 0)
      invariant forall k :: j <= k < |ps| ==> r[k] == ps[k]
    {
      r := r[j := r[j].(currentBet := 0)];
      j := j + 1;
    }
    SameStacks(ps, r);
  }

  /** The per-hand reset: no cards, no bet, no flag; the stack stays. */
  method ResetHands(ps: seq<Seat>) returns (r: seq<Seat>)
    ensures |r| == |ps|
    ensures forall j :: 0 <= j < |ps| ==>
      r[j] == ps[j].(cards := [], currentBet := 0, hasActed := false, isAllIn := false, isFolded := false)
    ensures TotalChips(r) == TotalChips(ps)
  {
    r := ps;
    var j := 0;
    while j < |ps|
      invariant 0 <= j <= |ps| && |r| == |ps|
      invariant forall k :: 0 <= k < j ==>
        r[k] == ps[k].(cards := [], currentBet := 0, hasActed := false, isAllIn := false, isFolded := false)
      invariant forall k :: j <= k < |ps| ==> r[k] == ps[k]
    {
      r := r[j := r[j].(cards := [], currentBet := 0, hasActed := false, isAllIn := false, isFolded := false)];
      j := j + 1;
    }
    SameStacks(ps, r);
  }

  // ---------------------------------------------------------------------
  // Turn order

  lemma MulBounds(x: int, n: nat)
    ensures x >= 1 ==> x * n >= n
    ensures x <= -1 ==> x * n <= -(n as int)
  {
  }

  /** A remainder is determined by any quotient-remainder split. */
  lemma ModUnique(a: int, n: nat, q: int, r: int)
    requires 0 <= r < n && a == q * n + r
    ensures a % n == r
  {
    var q', r' := a / n, a % n;
    assert a == q' * n + r';
    assert (q - q') * n == r' - r;
    MulBounds(q - q', n);
  }

  /** One step round the table, as a remainder of a non-negative sum. */
  lemma ModNext(a: nat, n: nat)
    requires n > 0
    ensures (a % n + 1) % n == (a + 1) % n
  {
    var q, r := a / n, a % n;
    assert a == q * n + r;
    if r + 1 < n {
      ModUnique(a + 1, n, q, r + 1);
      ModUnique(r + 1, n, 0, r + 1);
    } else {
      assert a + 1 == (q + 1) * n + 0;
      ModUnique(a + 1, n, q + 1, 0);
      ModUnique(r + 1, n, 1, 0);
    }
  }

  /** Every seat is some number of steps, between 1 and n, after cur. */
  lemma ModReach(cur: nat, s: nat, n: nat) returns (k: nat)
    requires s < n
    ensures 1 <= k <= n && (cur + k) % n == s
  {
    var q, r := cur / n, cur % n;
    assert cur == q * n + r;
    if s > r {
      k := s - r;
      ModUnique(cur + k, n, q, s);
    } else {
      k := n - r + s;
      assert cur + k == (q + 1) * n + s;
      ModUnique(cur + k, n, q + 1, s);
    }
  }

  /** The seat k steps clockwise after seat cur at a table of n seats. */
  function Clockwise(cur: nat, k: nat, n: nat): nat
    requires n > 0
  {
    (cur + k) % n
  }

  /** The do-while of nextPlayer: steps round the table from cur, at most n
      times, until it reaches a seat in play. It passes over only seats
      that are not in play, and ends on one that is whenever there is one. */
  method NextSeat(ps: seq<Seat>, cur: nat, n: nat) returns (next: nat, steps: nat)
    requires 0 < n <= |ps|
    ensures 1 <= steps <= n && next == (cur + steps) % n
    ensures forall k :: 1 <= k < steps ==> !InPlay(ps[Clockwise(cur, k, n)])
    ensures steps < n ==> InPlay(ps[next])
    ensures (exists s :: 0 <= s < n && InPlay(ps[s])) ==> InPlay(ps[next])
  {
    next := (cur + 1) % n;
    steps := 1;
    while !InPlay(ps[next]) && steps < n
      invariant 1 <= steps <= n && next == (cur + steps) % n
      invariant forall k :: 1 <= k < steps ==> !InPlay(ps[Clockwise(cur, k, n)])
      decreases n - steps
    {
      ModNext(cur + steps, n);
      next := (next + 1) % n;
      steps := steps + 1;
    }
    if exists s :: 0 <= s < n && InPlay(ps[s]) {
      var s :| 0 <= s < n && InPlay(ps[s]);
      var k := ModReach(cur, s, n);
      assert InPlay(ps[Clockwise(cur, k, n)]);
    }
  }

  /** The do-while of nextPlayer stops steps seats after cur having passed
      only seats not in play, and goes round the table at most once. With
      InPlay of the seat reached, that seat is the first in play after cur. */
  predicate Skips(ps: seq<Seat>, cur: nat, n: nat, steps: nat)
    requires 0 < n <= |ps|
  {
    1 <= steps <= n && forall k :: 1 <= k < steps ==> !InPlay(ps[Clockwise(cur, k, n)])
  }

  /** Zeroing the bets, the table's included, leaves a complete betting
      round complete. */
  lemma ClearedStaysComplete(ps: seq<Seat>, r: seq<Seat>, bet: int)
    requires RoundComplete(ps, bet) && |r| == |ps|
    requires forall j :: 0 <= j < |ps| ==> r[j] == ps[j].(currentBet := 0)
    ensures RoundComplete(r, 0)
  {
    CountInPlaySame(ps, r);
  }

  /** With two seats or more, the seats one and two after any seat differ. */
  lemma BlindSeatsDiffer(d: nat, n: nat)
    requires n >= 2
    ensures (d + 1) % n != (d + 2) % n
  {
    ModNext(d + 1, n);
  }

  // ---------------------------------------------------------------------
  // Dealing

  /** Active seats among ps, counted from the front. */
  function CountActive(ps: seq<Seat>): (n: nat)
    ensures n <= |ps|
  {
    if ps == [] then 0
    else CountActive(ps[..|ps| - 1]) + (if ps[|ps| - 1].isActive then 1 else 0)
  }

  lemma {:induction false} CountActiveStep(ps: seq<Seat>, j: nat)
    requires j < |ps|
    ensures CountActive(ps[..j + 1]) == CountActive(ps[..j]) + (if ps[j].isActive then 1 else 0)
  {
    assert ps[..j + 1][..j] == ps[..j];
  }

  lemma {:induction false} CountActivePrefix(ps: seq<Seat>, j: nat)
    requires j <= |ps|
    ensures CountActive(ps[..j]) <= CountActive(ps)
    decreases |ps| - j
  {
    if j < |ps| {
      CountActiveStep(ps, j);
      CountActivePrefix(ps, j + 1);
    } else {
      assert ps[..j] == ps;
    }
  }

  lemma {:induction false} CountActiveSame(ps: seq<Seat>, qs: seq<Seat>)
    requires |ps| == |qs|
    requires forall i :: 0 <= i < |ps| ==> ps[i].isActive == qs[i].isActive
    ensures CountActive(ps) == CountActive(qs)
    decreases |ps|
  {
    if ps != [] {
      var n := |ps| - 1;
      CountActiveSame(ps[..n], qs[..n]);
    }
  }

  /** The card popped for seat j on a pass: one card per active seat per
      pass, taken from the top (the end) of the deck. */
  function HoleCard(ps: seq<Seat>, deck: seq<Card>, j: nat, pass: nat): Card
    requires j < |ps| && pass < 2 && |deck| >= 2 * CountActive(ps)
    requires CountActive(ps[..j]) < CountActive(ps)
  {
    deck[|deck| - 1 - (if pass == 0 then 0 else CountActive(ps)) - CountActive(ps[..j])]
  }

  /** Seat j after `passes` passes of the deal. */
  function DealtSeat(ps: seq<Seat>, deck: seq<Card>, j: nat, passes: nat): Seat
    requires j < |ps| && passes <= 2 && |deck| >= 2 * CountActive(ps)
  {
    if !ps[j].isActive || passes == 0 then ps[j]
    else
      CountActiveStep(ps, j);
      CountActivePrefix(ps, j + 1);
      if passes == 1 then ps[j].(cards := ps[j].cards + [HoleCard(ps, deck, j, 0)])
      else ps[j].(cards := ps[j].cards + [HoleCard(ps, deck, j, 0), HoleCard(ps, deck, j, 1)])
  }

  /** A pass adds the pass's hole card to an active seat and nothing to an
      inactive one. */
  lemma DealtSeatNext(ps: seq<Seat>, deck: seq<Card>, j: nat, pass: nat)
    requires j < |ps| && pass < 2 && |deck| >= 2 * CountActive(ps)
    requires CountActive(ps[..j]) < CountActive(ps) || !ps[j].isActive
    ensures !ps[j].isActive ==> DealtSeat(ps, deck, j, pass + 1) == DealtSeat(ps, deck, j, pass)
    ensures ps[j].isActive ==>
      DealtSeat(ps, deck, j, pass + 1)
      == DealtSeat(ps, deck, j, pass).(cards := DealtSeat(ps, deck, j, pass).cards + [HoleCard(ps, deck, j, pass)])
  {
    if ps[j].isActive && pass == 1 {
      var c0, c1 := HoleCard(ps, deck, j, 0), HoleCard(ps, deck, j, 1);
      assert ps[j].cards + [c0] + [c1] == ps[j].cards + [c0, c1];
    }
  }

  /** Cards dealt before the given point of the deal. */
  function Dealt(ps: seq<Seat>, pass: nat, j: nat): (n: nat)
    requires j <= |ps|
    ensures n <= (if pass == 0 then 0 else CountActive(ps)) + CountActive(ps)
  {
    CountActivePrefix(ps, j);
    (if pass == 0 then 0 else CountActive(ps)) + CountActive(ps[..j])
  }

  /** One pass of the deal: each active seat, in order, takes the top card. */
  method DealPass(ps: seq<Seat>, deck: seq<Card>, pass: nat, r0: seq<Seat>, rest0: seq<Card>)
    returns (r: seq<Seat>, rest: seq<Card>)
    requires pass < 2 && |deck| >= 2 * CountActive(ps) && |r0| == |ps|
    requires forall k :: 0 <= k < |ps| ==> r0[k] == DealtSeat(ps, deck, k, pass)
    requires rest0 == deck[..|deck| - Dealt(ps, pass, 0)]
    ensures |r| == |ps|
    ensures rest == deck[..|deck| - (if pass == 0 then CountActive(ps) else 2 * CountActive(ps))]
    ensures forall k :: 0 <= k < |ps| ==> r[k] == DealtSeat(ps, deck, k, pass + 1)
  {
    r, rest := r0, rest0;
    var j := 0;
    CountActivePrefix(ps, 0);
    while j < |ps|
      invariant 0 <= j <= |ps| && |r| == |ps|
      invariant CountActive(ps[..j]) <= CountActive(ps)
      invariant rest == deck[..|deck| - Dealt(ps, pass, j)]
      invariant forall k :: 0 <= k < j ==> r[k] == DealtSeat(ps, deck, k, pass + 1)
      invariant forall k :: j <= k < |ps| ==> r[k] == DealtSeat(ps, deck, k, pass)
    {
      r, rest := DealTo(ps, deck, pass, j, r, rest);
      j := j + 1;
    }
    assert ps[..j] == ps;
  }

  /** The step of a pass at seat j: an active seat takes the top card. */
  method DealTo(ps: seq<Seat>, deck: seq<Card>, pass: nat, j: nat, r0: seq<Seat>, rest0: seq<Card>)
    returns (r: seq<Seat>, rest: seq<Card>)
    requires pass < 2 && |deck| >= 2 * CountActive(ps) && j < |ps| && |r0| == |ps|
    requires CountActive(ps[..j]) <= CountActive(ps)
    requires rest0 == deck[..|deck| - Dealt(ps, pass, j)]
    requires r0[j] == DealtSeat(ps, deck, j, pass)
    ensures CountActive(ps[..j + 1]) <= CountActive(ps)
    ensures rest == deck[..|deck| - Dealt(ps, pass, j + 1)]
    ensures r == r0[j := DealtSeat(ps, deck, j, pass + 1)]
  {
    CountActiveStep(ps, j);
    CountActivePrefix(ps, j + 1);
    DealtSeatNext(ps, deck, j, pass);
    r, rest := r0, rest0;
    if r[j].isActive {
      var card := rest[|rest| - 1];
      assert card == HoleCard(ps, deck, j, pass);
      rest := rest[..|rest| - 1];
      r := r[j := r[j].(cards := r[j].cards + [card])];
    }
  }

  /** The cards in the seats' hands, as one multiset. */
  function HoleCards(ps: seq<Seat>): multiset<Card> {
    if ps == [] then multiset{} else HoleCards(ps[..|ps| - 1]) + multiset(ps[|ps| - 1].cards)
  }

  lemma {:induction false} HoleCardsSame(ps: seq<Seat>, qs: seq<Seat>)
    requires |ps| == |qs| && forall i :: 0 <= i < |ps| ==> ps[i].cards == qs[i].cards
    ensures HoleCards(ps) == HoleCards(qs)
    decreases |ps|
  {
    if ps != [] {
      HoleCardsSame(ps[..|ps| - 1], qs[..|qs| - 1]);
    }
  }

  /** Seats with empty hands hold no cards between them. */
  lemma {:induction false} NoHoleCards(ps: seq<Seat>)
    requires forall i :: 0 <= i < |ps| ==> ps[i].cards == []
    ensures HoleCards(ps) == multiset{}
    decreases |ps|
  {
    if ps != [] {
      NoHoleCards(ps[..|ps| - 1]);
    }
  }

  /** The cards of a deck and of the hands at the table together. */
  function Held(deck: seq<Card>, ps: seq<Seat>): multiset<Card> {
    multiset(deck) + HoleCards(ps)
  }

  /** Giving seat j one more card adds that card to the cards held. */
  lemma {:induction false} HoleCardsAdd(ps: seq<Seat>, j: nat, card: Card)
    requires j < |ps|
    ensures HoleCards(ps[j := ps[j].(cards := ps[j].cards + [card])]) == HoleCards(ps) + multiset{card}
    decreases |ps|
  {
    var n := |ps|;
    var qs := ps[j := ps[j].(cards := ps[j].cards + [card])];
    var h, g := HoleCards(ps[..n - 1]), HoleCards(qs[..n - 1]);
    assert HoleCards(ps) == h + multiset(ps[n - 1].cards);
    assert HoleCards(qs) == g + multiset(qs[n - 1].cards);
    if j == n - 1 {
      assert qs[..n - 1] == ps[..n - 1];
      assert multiset(qs[n - 1].cards) == multiset(ps[n - 1].cards) + multiset{card};
    } else {
      assert qs[..n - 1] == ps[..n - 1][j := ps[j].(cards := ps[j].cards + [card])];
      assert ps[..n - 1][j] == ps[j];
      HoleCardsAdd(ps[..n - 1], j, card);
      assert qs[n - 1] == ps[n - 1];
    }
  }

  /** Moving the top card of the deck into seat j's hand keeps the cards. */
  lemma MoveTopCard(r0: seq<Seat>, rest0: seq<Card>, j: nat, card: Card)
    requires j < |r0| && |rest0| > 0 && card == rest0[|rest0| - 1]
    ensures Held(rest0[..|rest0| - 1], r0[j := r0[j].(cards := r0[j].cards + [card])]) == Held(rest0, r0)
  {
    HoleCardsAdd(r0, j, card);
    assert rest0 == rest0[..|rest0| - 1] + [card];
  }

  /** The deal loses no card and makes none up: the deck left and the
      hands after the deal hold what the deck and the hands held before.
      The proof replays the two passes one seat at a time. */
  lemma DealKeepsCards(ps: seq<Seat>, deck: seq<Card>, r: seq<Seat>)
    requires |deck| >= 2 * CountActive(ps) && |r| == |ps|
    requires forall j :: 0 <= j < |ps| ==> r[j] == DealtSeat(ps, deck, j, 2)
    ensures Held(deck[..|deck| - 2 * CountActive(ps)], r) == Held(deck, ps)
  {
    assert ps[..0] == [];
    var q1, rest1 := PassKeepsCards(ps, deck, 0, ps, deck);
    var q2, rest2 := PassKeepsCards(ps, deck, 1, q1, rest1);
    assert q2 == r;
    assert rest2 == deck[..|deck| - 2 * CountActive(ps)];
  }

  /** One pass of the deal, replayed on values. */
  lemma PassKeepsCards(ps: seq<Seat>, deck: seq<Card>, pass: nat, r0: seq<Seat>, rest0: seq<Card>)
    returns (r: seq<Seat>, rest: seq<Card>)
    requires pass < 2 && |deck| >= 2 * CountActive(ps) && |r0| == |ps|
    requires forall k :: 0 <= k < |ps| ==> r0[k] == DealtSeat(ps, deck, k, pass)
    requires rest0 == deck[..|deck| - Dealt(ps, pass, 0)]
    ensures |r| == |ps|
    ensures rest == deck[..|deck| - (if pass == 0 then CountActive(ps) else 2 * CountActive(ps))]
    ensures forall k :: 0 <= k < |ps| ==> r[k] == DealtSeat(ps, deck, k, pass + 1)
    ensures Held(rest, r) == Held(rest0, r0)
  {
    CountActivePrefix(ps, 0);
    r, rest := PassFrom(ps, deck, pass, 0, r0, rest0);
    assert ps[..|ps|] == ps;
  }

  /** The rest of a pass from seat j on, replayed on values. */
  lemma PassFrom(ps: seq<Seat>, deck: seq<Card>, pass: nat, j: nat, r0: seq<Seat>, rest0: seq<Card>)
    returns (r: seq<Seat>, rest: seq<Card>)
    requires pass < 2 && |deck| >= 2 * CountActive(ps) && j <= |ps| && |r0| == |ps|
    requires CountActive(ps[..j]) <= CountActive(ps)
    requires rest0 == deck[..|deck| - Dealt(ps, pass, j)]
    requires forall k :: 0 <= k < j ==> r0[k] == DealtSeat(ps, deck, k, pass + 1)
    requires forall k :: j <= k < |ps| ==> r0[k] == DealtSeat(ps, deck, k, pass)
    ensures |r| == |ps|
    ensures rest == deck[..|deck| - Dealt(ps, pass, |ps|)]
    ensures forall k :: 0 <= k < |ps| ==> r[k] == DealtSeat(ps, deck, k, pass + 1)
    ensures Held(rest, r) == Held(rest0, r0)
    decreases |ps| - j
  {
    if j == |ps| {
      r, rest := r0, rest0;
    } else {
      var r1, rest1 := StepKeepsCards(ps, deck, pass, j, r0, rest0);
      r, rest := PassFrom(ps, deck, pass, j + 1, r1, rest1);
    }
  }

  /** One seat of a pass, replayed on values: an active seat takes the top
      card, which leaves the deck for its hand. */
  lemma StepKeepsCards(ps: seq<Seat>, deck: seq<Card>, pass: nat, j: nat, r0: seq<Seat>, rest0: seq<Card>)
    returns (r: seq<Seat>, rest: seq<Card>)
    requires pass < 2 && |deck| >= 2 * CountActive(ps) && j < |ps| && |r0| == |ps|
    requires CountActive(ps[..j]) <= CountActive(ps)
    requires rest0 == deck[..|deck| - Dealt(ps, pass, j)]
    requires r0[j] == DealtSeat(ps, deck, j, pass)
    ensures CountActive(ps[..j + 1]) <= CountActive(ps)
    ensures rest == deck[..|deck| - Dealt(ps, pass, j + 1)]
    ensures r == r0[j := DealtSeat(ps, deck, j, pass + 1)]
    ensures Held(rest, r) == Held(rest0, r0)
  {
    CountActiveStep(ps, j);
    CountActivePrefix(ps, j + 1);
    DealtSeatNext(ps, deck, j, pass);
    r, rest := r0, rest0;
    if r[j].isActive {
      var card := rest[|rest| - 1];
      assert card == HoleCard(ps, deck, j, pass);
      MoveTopCard(r, rest, j, card);
      rest := rest[..|rest| - 1];
      r := r[j := r[j].(cards := r[j].cards + [card])];
    }
  }

  /** dealHoleCards: two passes over the seats, each active seat taking the
      top card on each pass. Every active seat ends with exactly two more
      cards, inactive seats are untouched, and the deck loses two cards per
      active seat from its top. */
  method DealHoleCards(ps: seq<Seat>, deck: seq<Card>) returns (r: seq<Seat>, rest: seq<Card>)
    requires |deck| >= 2 * CountActive(ps)
    ensures |r| == |ps| && rest == deck[..|deck| - 2 * CountActive(ps)]
    ensures forall j :: 0 <= j < |ps| ==> r[j] == DealtSeat(ps, deck, j, 2)
    ensures forall j :: 0 <= j < |ps| && ps[j].isActive ==> |r[j].cards| == |ps[j].cards| + 2
    ensures forall j :: 0 <= j < |ps| ==> r[j].chips == ps[j].chips
    ensures Held(rest, r) == Held(deck, ps)
  {
    assert ps[..0] == [];
    r, rest := DealPass(ps, deck, 0, ps, deck);
    r, rest := DealPass(ps, deck, 1, r, rest);
    DealKeepsCards(ps, deck, r);
  }
}
