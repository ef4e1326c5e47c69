/** The Tarneeb engine: winner determination for one trick, the round-robin
    deal, the bidding, the thirteen rounds of play, and the game as a whole.
    Randomness (the shuffle, the bid amounts, the trump suit) is supplied by
    the caller. */
module Tarneeb {
  import opened Cards
  import opened Decks
  import opened Players

  const ROUNDS: nat := 13
  const NUMBER_OF_PLAYERS: nat := 4

  // ---------------------------------------------------------------------
  // Winner determination
  // ---------------------------------------------------------------------

  /** The cards of cs whose suit equals suit, in played order (a suit of None
      matches no card). */
  function Filter(cs: seq<Card>, suit: Option<Suit>): seq<Card> {
    if cs == [] then []
    else (if Some(cs[0].suit) == suit then [cs[0]] else []) + Filter(cs[1..], suit)
  }

  /** Filter keeps exactly the cards of the given suit. */
  lemma {:induction false} FilterMembers(cs: seq<Card>, suit: Option<Suit>)
    ensures forall c :: c in Filter(cs, suit) <==> c in cs && Some(c.suit) == suit
  {
    if cs != [] {
      FilterMembers(cs[1..], suit);
      assert cs == [cs[0]] + cs[1..];
    }
  }

  /** Python's max(cs, key=value): scanning left to right, a card replaces
      the best so far only when its value is strictly higher. */
  function MaxByValue(cs: seq<Card>): Card
    requires |cs| > 0
  {
    if |cs| == 1 then cs[0]
    else
      var m := MaxByValue(cs[..|cs| - 1]);
      if cs[|cs| - 1].Value() > m.Value() then cs[|cs| - 1] else m
  }

  /** MaxByValue picks a card of cs of highest value, and the first one:
      every card before it is strictly lower. */
  lemma {:induction false} MaxByValueIsFirstMax(cs: seq<Card>)
    requires |cs| > 0
    ensures MaxByValue(cs) in cs
    ensures forall c :: c in cs ==> c.Value() <= MaxByValue(cs).Value()
    ensures forall i :: 0 <= i < IndexOf(cs, MaxByValue(cs)) ==> cs[i].Value() < MaxByValue(cs).Value()
  {
    if |cs| > 1 {
      var pre := cs[..|cs| - 1];
      MaxByValueIsFirstMax(pre);
      MaxByValueStep(pre, cs[|cs| - 1], MaxByValue(pre));
      assert cs == pre + [cs[|cs| - 1]];
    }
  }

  /** The step of MaxByValue: given the first highest card m of pre, the next
      card replaces m only when it is strictly higher. */
  lemma MaxByValueStep(pre: seq<Card>, last: Card, m: Card)
    requires m in pre
    requires forall c :: c in pre ==> c.Value() <= m.Value()
    requires forall i :: 0 <= i < IndexOf(pre, m) ==> pre[i].Value() < m.Value()
    ensures var cs, r := pre + [last], if last.Value() > m.Value() then last else m;
      && r in cs
      && (forall c :: c in cs ==> c.Value() <= r.Value())
      && (forall i :: 0 <= i < IndexOf(cs, r) ==> cs[i].Value() < r.Value())
  {
    var cs := pre + [last];
    assert cs[..|pre|] == pre;
    if last.Value() <= m.Value() {
      IndexOfPrefix(cs, |pre|, m);
    }
  }

  /** The first occurrence of x in s, when it lies in s[..k], is its first
      occurrence in s[..k]. */
  lemma IndexOfPrefix<T>(s: seq<T>, k: nat, x: T)
    requires k <= |s| && x in s[..k]
    ensures IndexOf(s, x) == IndexOf(s[..k], x)
  {
    var j, j' := IndexOf(s, x), IndexOf(s[..k], x);
    IndexOfFirst(s, x);
    IndexOfFirst(s[..k], x);
    assert s[j'] == x;
    assert j <= j';
    assert s[..k][j] == x;
  }

  /** Some card of cs has the given suit. */
  predicate HasSuit(cs: seq<Card>, suit: Option<Suit>) {
    exists i :: 0 <= i < |cs| && Some(cs[i].suit) == suit
  }

  /** The highest trump if any trump was played, otherwise the highest card of
      the led suit; None when neither exists (max of an empty list fails). */
  function DetermineWinningCard(cardsPlayed: seq<Card>, leadingSuit: Option<Suit>, trumpSuit: Option<Suit>): Option<Card> {
    var trumpCards := Filter(cardsPlayed, trumpSuit);
    var leadingCards := Filter(cardsPlayed, leadingSuit);
    if |trumpCards| > 0 then Some(MaxByValue(trumpCards))
    else if |leadingCards| > 0 then Some(MaxByValue(leadingCards))
    else None
  }

  /** A winning card exists exactly when a trump or a card of the led suit was
      played, and it is one of the cards played. A played trump always wins,
      and then the winner is a trump that no played trump outranks; with no
      trump played, the winner is a led-suit card that no played led-suit card
      outranks. */
  lemma DetermineWinningCardSpec(cardsPlayed: seq<Card>, leadingSuit: Option<Suit>, trumpSuit: Option<Suit>)
    ensures var r := DetermineWinningCard(cardsPlayed, leadingSuit, trumpSuit);
      && (r.Some? <==> HasSuit(cardsPlayed, trumpSuit) || HasSuit(cardsPlayed, leadingSuit))
      && (r.Some? ==> r.value in cardsPlayed)
      && (HasSuit(cardsPlayed, trumpSuit) ==>
        && r.Some?
        && Some(r.value.suit) == trumpSuit
        && forall c :: c in cardsPlayed && Some(c.suit) == trumpSuit ==> c.Value() <= r.value.Value())
      && (!HasSuit(cardsPlayed, trumpSuit) && r.Some? ==>
        && Some(r.value.suit) == leadingSuit
        && forall c :: c in cardsPlayed && Some(c.suit) == leadingSuit ==> c.Value() <= r.value.Value())
  {
    var trumpCards := Filter(cardsPlayed, trumpSuit);
    var leadingCards := Filter(cardsPlayed, leadingSuit);
    FilterNonEmpty(cardsPlayed, trumpSuit);
    FilterNonEmpty(cardsPlayed, leadingSuit);
    FilterMembers(cardsPlayed, trumpSuit);
    FilterMembers(cardsPlayed, leadingSuit);
    if |trumpCards| > 0 {
      MaxByValueIsFirstMax(trumpCards);
    } else if |leadingCards| > 0 {
      MaxByValueIsFirstMax(leadingCards);
    }
  }

  /** Filtering by a suit leaves some card exactly when a card of that suit
      was played. */
  lemma FilterNonEmpty(cs: seq<Card>, suit: Option<Suit>)
    ensures |Filter(cs, suit)| > 0 <==> HasSuit(cs, suit)
  {
    FilterMembers(cs, suit);
    if HasSuit(cs, suit) {
      var i :| 0 <= i < |cs| && Some(cs[i].suit) == suit;
      assert cs[i] in Filter(cs, suit);
    }
    if |Filter(cs, suit)| > 0 {
      var c := Filter(cs, suit)[0];
      var i :| 0 <= i < |cs| && cs[i] == c;
    }
  }

  /** If trumps were played, the trump that no other trump outranks wins. */
  lemma HighestTrumpWins(cs: seq<Card>, leadingSuit: Option<Suit>, trumpSuit: Option<Suit>, c: Card)
    requires c in cs && Some(c.suit) == trumpSuit
    requires forall d :: d in cs && Some(d.suit) == trumpSuit ==> d.Value() <= c.Value()
    ensures DetermineWinningCard(cs, leadingSuit, trumpSuit) == Some(c)
  {
    DetermineWinningCardSpec(cs, leadingSuit, trumpSuit);
    var i :| 0 <= i < |cs| && cs[i] == c;
    assert HasSuit(cs, trumpSuit);
    var r := DetermineWinningCard(cs, leadingSuit, trumpSuit).value;
    ValueIgnoresSuit(r, c);
  }

  /** With no trump played, the led-suit card that no other led-suit card
      outranks wins. */
  lemma HighestLedCardWins(cs: seq<Card>, leadingSuit: Option<Suit>, trumpSuit: Option<Suit>, c: Card)
    requires !HasSuit(cs, trumpSuit)
    requires c in cs && Some(c.suit) == leadingSuit
    requires forall d :: d in cs && Some(d.suit) == leadingSuit ==> d.Value() <= c.Value()
    ensures DetermineWinningCard(cs, leadingSuit, trumpSuit) == Some(c)
  {
    DetermineWinningCardSpec(cs, leadingSuit, trumpSuit);
    var i :| 0 <= i < |cs| && cs[i] == c;
    assert HasSuit(cs, leadingSuit);
    var r := DetermineWinningCard(cs, leadingSuit, trumpSuit).value;
    ValueIgnoresSuit(r, c);
  }

  /** The seat that played the winning card of a trick: the first seat, in
      play order, holding the card DetermineWinningCard picks with the led
      suit taken from the first card played. */
  function TrickWinner(trick: seq<Card>, trumpSuit: Option<Suit>): (w: nat)
    requires |trick| > 0
    ensures w < |trick|
  {
    LeadWinningCardPlayed(trick, trumpSuit);
    IndexOf(trick, DetermineWinningCard(trick, Some(trick[0].suit), trumpSuit).value)
  }

  /** With the led suit taken from the first card, a trick always has a
      winning card, and it is one of the cards played. */
  lemma LeadWinningCardPlayed(trick: seq<Card>, trumpSuit: Option<Suit>)
    requires |trick| > 0
    ensures var r := DetermineWinningCard(trick, Some(trick[0].suit), trumpSuit);
      r.Some? && r.value in trick
  {
    DetermineWinningCardSpec(trick, Some(trick[0].suit), trumpSuit);
    assert HasSuit(trick, Some(trick[0].suit));
  }

  /** The winning seat played the winning card, and no earlier seat played it. */
  lemma TrickWinnerHoldsWinningCard(trick: seq<Card>, trumpSuit: Option<Suit>)
    requires |trick| > 0
    ensures var w := TrickWinner(trick, trumpSuit);
      && DetermineWinningCard(trick, Some(trick[0].suit), trumpSuit) == Some(trick[w])
      && trick[w] !in trick[..w]
  {
    LeadWinningCardPlayed(trick, trumpSuit);
    IndexOfFirst(trick, DetermineWinningCard(trick, Some(trick[0].suit), trumpSuit).value);
    var w := TrickWinner(trick, trumpSuit);
    assert forall k :: 0 <= k < w ==> trick[..w][k] == trick[k];
  }

  /** The winning seat is the first seat, in play order, whose card is a top
      card of the winning suit: every earlier card of that suit is strictly
      lower. Python's max keeps the first top card, so finding its seat by
      object identity gives the same seat as finding it by equal value. */
  lemma TrickWinnerIsFirstTopCard(trick: seq<Card>, trumpSuit: Option<Suit>)
    requires |trick| > 0
    ensures var w := TrickWinner(trick, trumpSuit);
      forall k :: 0 <= k < w && trick[k].suit == trick[w].suit ==> trick[k].Value() < trick[w].Value()
  {
    var w := TrickWinner(trick, trumpSuit);
    TrickWinnerHoldsWinningCard(trick, trumpSuit);
    DetermineWinningCardSpec(trick, Some(trick[0].suit), trumpSuit);
    forall k | 0 <= k < w && trick[k].suit == trick[w].suit
      ensures trick[k].Value() < trick[w].Value()
    {
      assert trick[k] in trick[..w];
      ValueIgnoresSuit(trick[k], trick[w]);
    }
  }

  /** Trump precedence: in the trick 9 of Clubs, Queen of Clubs, 2 of Spades,
      King of Spades with Spades as trump, the King of Spades wins (seat 3),
      although Clubs were led and the Queen of Clubs is present. */
  lemma TrumpBeatsLedSuitExample()
    ensures var trick := [Card(Nine, Clubs), Card(Queen, Clubs), Card(Two, Spades), Card(King, Spades)];
      && DetermineWinningCard(trick, Some(Clubs), Some(Spades)) == Some(Card(King, Spades))
      && TrickWinner(trick, Some(Spades)) == 3
  {
    var trick := [Card(Nine, Clubs), Card(Queen, Clubs), Card(Two, Spades), Card(King, Spades)];
    HighestTrumpWins(trick, Some(Clubs), Some(Spades), Card(King, Spades));
    assert trick[0].suit == Clubs;
    assert IndexOf(trick, Card(King, Spades)) == 3;
  }

  /** With no trump played, the highest led-suit card wins: in the trick
      5 of Diamonds, 9 of Diamonds, 3 of Clubs, 7 of Hearts with Spades as
      trump, the 9 of Diamonds wins (seat 1). */
  lemma LedSuitWinsWithoutTrumpExample()
    ensures var trick := [Card(Five, Diamonds), Card(Nine, Diamonds), Card(Three, Clubs), Card(Seven, Hearts)];
      && DetermineWinningCard(trick, Some(Diamonds), Some(Spades)) == Some(Card(Nine, Diamonds))
      && TrickWinner(trick, Some(Spades)) == 1
  {
    var trick := [Card(Five, Diamonds), Card(Nine, Diamonds), Card(Three, Clubs), Card(Seven, Hearts)];
    assert !HasSuit(trick, Some(Spades));
    HighestLedCardWins(trick, Some(Diamonds), Some(Spades), Card(Nine, Diamonds));
    assert trick[0].suit == Diamonds;
    assert IndexOf(trick, Card(Nine, Diamonds)) == 1;
  }

  // ---------------------------------------------------------------------
  // Deals, rounds and trick counts, as functions of the hands
  // ---------------------------------------------------------------------

  /** The cards played in round r when every seat plays the first card left
      in hand: card r of each hand. */
  function TrickCards(hands: seq<seq<Card>>, r: nat): seq<Card>
    requires forall j :: 0 <= j < |hands| ==> r < |hands[j]|
  {
    seq(|hands|, j requires 0 <= j < |hands| => hands[j][r])
  }

  /** Every hand holds at least the given number of cards. */
  predicate CanPlay(hands: seq<seq<Card>>, rounds: nat) {
    |hands| > 0 && forall j :: 0 <= j < |hands| ==> rounds <= |hands[j]|
  }

  /** The winning seat of each of the first `rounds` rounds. */
  function Winners(hands: seq<seq<Card>>, trumpSuit: Option<Suit>, rounds: nat): (ws: seq<nat>)
    requires CanPlay(hands, rounds)
    ensures |ws| == rounds && forall r :: 0 <= r < rounds ==> ws[r] < |hands|
  {
    seq(rounds, r requires 0 <= r < rounds => TrickWinner(TrickCards(hands, r), trumpSuit))
  }

  /** Tricks per seat when the rounds are won by the seats ws, in order. */
  function Tally(ws: seq<nat>, seats: nat): (t: seq<nat>)
    requires forall r :: 0 <= r < |ws| ==> ws[r] < seats
    ensures |t| == seats
  {
    if ws == [] then seq(seats, _ => 0)
    else
      var before, k := Tally(ws[..|ws| - 1], seats), ws[|ws| - 1];
      before[k := before[k] + 1]
  }

  function Sum(s: seq<nat>): nat {
    if s == [] then 0 else s[0] + Sum(s[1..])
  }

  function Add(a: seq<nat>, b: seq<nat>): seq<nat>
    requires |a| == |b|
  {
    seq(|a|, i requires 0 <= i < |a| => a[i] + b[i])
  }

  lemma {:induction false} SumIncrement(s: seq<nat>, k: nat)
    requires k < |s|
    ensures Sum(s[k := s[k] + 1]) == Sum(s) + 1
  {
    if k > 0 {
      SumIncrement(s[1..], k - 1);
      assert s[k := s[k] + 1][1..] == s[1..][k - 1 := s[k] + 1];
    }
  }

  lemma {:induction false} SumAdd(a: seq<nat>, b: seq<nat>)
    requires |a| == |b|
    ensures Sum(Add(a, b)) == Sum(a) + Sum(b)
  {
    if a != [] {
      SumAdd(a[1..], b[1..]);
      assert Add(a, b)[1..] == Add(a[1..], b[1..]);
    }
  }

  lemma {:induction false} SumZeros(n: nat)
    ensures Sum(seq(n, _ => 0)) == 0
  {
    if n > 0 {
      SumZeros(n - 1);
      assert seq(n, _ => 0)[1..] == seq(n - 1, _ => 0);
    }
  }

  /** Extending the rounds by one credits the winner of the new round, and
      no one else. */
  lemma TallyStep(ws: seq<nat>, round: nat, seats: nat)
    requires round < |ws| && forall r :: 0 <= r < |ws| ==> ws[r] < seats
    ensures forall j :: 0 <= j < seats ==>
      Tally(ws[..round + 1], seats)[j] == Tally(ws[..round], seats)[j] + (if j == ws[round] then 1 else 0)
  {
    assert ws[..round + 1][..round] == ws[..round];
  }

  /** Counts that grew, seat by seat, by the tally of the winners ws are the
      old counts plus that tally, and their total grew by |ws|. */
  lemma TalliedTricks(t: seq<nat>, before: seq<nat>, ws: seq<nat>)
    requires |t| == |before| && forall r :: 0 <= r < |ws| ==> ws[r] < |t|
    requires forall j :: 0 <= j < |t| ==> t[j] == before[j] + Tally(ws, |t|)[j]
    ensures t == Add(before, Tally(ws, |t|))
    ensures Sum(t) == Sum(before) + |ws|
  {
    assert t == Add(before, Tally(ws, |t|));
    SumAdd(before, Tally(ws, |t|));
    TallySum(ws, |t|);
  }

  /** Each round adds exactly one trick, so the counts add up to the number
      of rounds played. */
  lemma {:induction false} TallySum(ws: seq<nat>, seats: nat)
    requires forall r :: 0 <= r < |ws| ==> ws[r] < seats
    ensures Sum(Tally(ws, seats)) == |ws|
  {
    if ws == [] {
      SumZeros(seats);
    } else {
      TallySum(ws[..|ws| - 1], seats);
      SumIncrement(Tally(ws[..|ws| - 1], seats), ws[|ws| - 1]);
    }
  }

  /** The cards seat `seat` receives from the first `rounds` passes of the
      round-robin deal: d[seat], d[4 + seat], d[8 + seat], ... */
  function DealtTo(d: seq<Card>, seat: nat, rounds: nat): (h: seq<Card>)
    requires seat < NUMBER_OF_PLAYERS && NUMBER_OF_PLAYERS * rounds <= |d|
  {
    seq(rounds, k requires 0 <= k < rounds => d[NUMBER_OF_PLAYERS * k + seat])
  }

  /** Four hands after a full deal of d on top of what they held. */
  function DealtOnto(hands: seq<seq<Card>>, d: seq<Card>): seq<seq<Card>>
    requires |hands| == NUMBER_OF_PLAYERS && |d| == NUMBER_OF_CARDS
  {
    seq(NUMBER_OF_PLAYERS, j requires 0 <= j < NUMBER_OF_PLAYERS => hands[j] + DealtTo(d, j, ROUNDS))
  }

  /** A hand that held at most thirteen cards before the deal, once thirteen
      cards are played from its front, keeps as many cards as it held: the
      last ones dealt to it. An empty hand ends empty. */
  lemma HandAfterGame(h: seq<Card>, d: seq<Card>, seat: nat)
    requires seat < NUMBER_OF_PLAYERS && |d| == NUMBER_OF_CARDS && |h| <= ROUNDS
    ensures (h + DealtTo(d, seat, ROUNDS))[ROUNDS..] == DealtTo(d, seat, ROUNDS)[ROUNDS - |h|..]
    ensures |(h + DealtTo(d, seat, ROUNDS))[ROUNDS..]| == |h|
  {
    var dealt := DealtTo(d, seat, ROUNDS);
    assert (h + dealt)[ROUNDS..] == dealt[ROUNDS - |h|..];
  }

  /** After dealing a full deck into empty hands, round r's trick is the
      block d[4r .. 4r+4], so no card is played twice and, in a deck of
      distinct cards, no two cards of a trick are equal. */
  lemma DealtTrick(hands: seq<seq<Card>>, d: seq<Card>, r: nat)
    requires |hands| == NUMBER_OF_PLAYERS && |d| == NUMBER_OF_CARDS && r < ROUNDS
    requires forall j :: 0 <= j < NUMBER_OF_PLAYERS ==> hands[j] == []
    ensures CanPlay(DealtOnto(hands, d), ROUNDS)
    ensures TrickCards(DealtOnto(hands, d), r) == d[NUMBER_OF_PLAYERS * r .. NUMBER_OF_PLAYERS * r + NUMBER_OF_PLAYERS]
    ensures Distinct(d) ==> Distinct(TrickCards(DealtOnto(hands, d), r))
  {
    var hs := DealtOnto(hands, d);
    forall j | 0 <= j < NUMBER_OF_PLAYERS
      ensures hs[j] == DealtTo(d, j, ROUNDS)
    {
      assert hands[j] + DealtTo(d, j, ROUNDS) == DealtTo(d, j, ROUNDS);
    }
  }

  // ---------------------------------------------------------------------
  // The game
  // ---------------------------------------------------------------------

  class TarneebGame {
    const players: seq<Player>
    const deck: DeckOfCards
    var trumpSuit: Option<Suit>
    var bids: map<Player, int>
    /** The seat of each player; it exists because no player sits twice. */
    ghost const seat: map<Player, nat>

    ghost predicate Valid()
      reads this, deck
    {
      && |players| == NUMBER_OF_PLAYERS
      && (forall a :: 0 <= a < |players| ==> players[a] in seat && seat[players[a]] == a)
      && deck.Valid()
    }

    /** The hands, in seating order. */
    ghost function Hands(): (hs: seq<seq<Card>>)
      requires |players| == NUMBER_OF_PLAYERS
      reads players
      ensures |hs| == NUMBER_OF_PLAYERS
      ensures forall j :: 0 <= j < NUMBER_OF_PLAYERS ==> hs[j] == players[j].hand
    {
      [players[0].hand, players[1].hand, players[2].hand, players[3].hand]
    }

    /** The trick counters, in seating order. */
    ghost function Tricks(): (ts: seq<nat>)
      requires |players| == NUMBER_OF_PLAYERS
      reads players
      ensures |ts| == NUMBER_OF_PLAYERS
      ensures forall j :: 0 <= j < NUMBER_OF_PLAYERS ==> ts[j] == players[j].tricksWon
    {
      [players[0].tricksWon, players[1].tricksWon, players[2].tricksWon, players[3].tricksWon]
    }

    constructor (players: seq<Player>)
      requires |players| == NUMBER_OF_PLAYERS
      requires forall a, b :: 0 <= a < b < |players| ==> players[a] != players[b]
      ensures Valid() && fresh(deck)
      ensures this.players == players
      ensures deck.deck == NewDeck() && deck.currentCard == 0
      ensures trumpSuit == None && bids == map[]
    {
      this.players := players;
      seat := map a | 0 <= a < |players| :: players[a] := a;
      deck := new DeckOfCards();
      trumpSuit := None;
      bids := map[];
    }

    /** Thirteen passes round the table, one card per player per pass. */
    method DealCards()
      requires Valid() && deck.currentCard == 0
      modifies deck, players
      ensures Valid()
      ensures deck.deck == old(deck.deck) && deck.currentCard == NUMBER_OF_CARDS
      ensures forall j :: 0 <= j < NUMBER_OF_PLAYERS ==>
        && players[j].hand == old(players[j].hand) + DealtTo(deck.deck, j, ROUNDS)
        && players[j].tricksWon == old(players[j].tricksWon)
    {
      for round := 0 to ROUNDS
        invariant deck.Valid() && deck.deck == old(deck.deck)
        invariant deck.currentCard == NUMBER_OF_PLAYERS * round
        invariant forall k :: 0 <= k < NUMBER_OF_PLAYERS ==>
          && players[k].hand == old(players[k].hand) + DealtTo(deck.deck, k, round)
          && players[k].tricksWon == old(players[k].tricksWon)
      {
        for j := 0 to NUMBER_OF_PLAYERS
          invariant deck.Valid() && deck.deck == old(deck.deck)
          invariant deck.currentCard == NUMBER_OF_PLAYERS * round + j
          invariant forall k :: 0 <= k < NUMBER_OF_PLAYERS ==>
            && players[k].hand == old(players[k].hand) + DealtTo(deck.deck, k, if k < j then round + 1 else round)
            && players[k].tricksWon == old(players[k].tricksWon)
        {
          var card := deck.DealCard();
          // the deck never runs out during the deal
          assert card == Some(deck.deck[NUMBER_OF_PLAYERS * round + j]);
          assert DealtTo(deck.deck, j, round + 1) == DealtTo(deck.deck, j, round) + [card.value];
          players[j].ReceiveCard(card.value);
        }
      }
    }

    /** Each player bids the amount offers[i] (drawn from 7..13) in seating
        order; the first highest bid wins, the trump suit is the one drawn,
        and only the winning bid is recorded. */
    method BiddingPhase(offers: seq<int>, trump: Suit) returns (winner: nat, highestBid: int)
      requires Valid()
      requires |offers| == NUMBER_OF_PLAYERS && forall i :: 0 <= i < |offers| ==> 7 <= offers[i] <= 13
      modifies this
      ensures Valid()
      ensures winner < NUMBER_OF_PLAYERS && highestBid == offers[winner]
      ensures forall i :: 0 <= i < NUMBER_OF_PLAYERS ==> offers[i] <= highestBid
      ensures forall i :: 0 <= i < winner ==> offers[i] < highestBid
      ensures trumpSuit == Some(trump)
      ensures bids == old(bids)[players[winner] := highestBid]
    {
      highestBid := 0;
      var highestBidder: Option<nat> := None;
      for i := 0 to NUMBER_OF_PLAYERS
        invariant highestBidder == None <==> i == 0
        invariant highestBidder == None ==> highestBid == 0
        invariant highestBidder.Some? ==>
          && highestBidder.value < i
          && highestBid == offers[highestBidder.value]
          && (forall k :: 0 <= k < i ==> offers[k] <= highestBid)
          && (forall k :: 0 <= k < highestBidder.value ==> offers[k] < highestBid)
      {
        var bid := players[i].Bid(offers[i]);
        if bid > highestBid {
          highestBid := bid;
          highestBidder := Some(i);
        }
      }
      trumpSuit := Some(trump);
      winner := highestBidder.value;
      bids := bids[players[winner] := highestBid];
    }

    /** The players, in seating order, each play the first card of their
        hand; the led suit is the suit of the first card played. */
    method PlayCards() returns (cardsPlayed: seq<Card>, leadingSuit: Option<Suit>)
      requires Valid()
      requires forall j :: 0 <= j < NUMBER_OF_PLAYERS ==> |players[j].hand| > 0
      modifies players
      ensures Valid()
      ensures |cardsPlayed| == NUMBER_OF_PLAYERS
      ensures forall j :: 0 <= j < NUMBER_OF_PLAYERS ==> cardsPlayed[j] == old(players[j].hand)[0]
      ensures leadingSuit == Some(cardsPlayed[0].suit)
      ensures forall j :: 0 <= j < NUMBER_OF_PLAYERS ==>
        && players[j].hand == old(players[j].hand)[1..]
        && players[j].tricksWon == old(players[j].tricksWon)
    {
      cardsPlayed := [];
      leadingSuit := None;
      for j := 0 to NUMBER_OF_PLAYERS
        invariant |cardsPlayed| == j
        invariant forall k :: 0 <= k < j ==> cardsPlayed[k] == old(players[k].hand)[0]
        invariant forall k :: 0 <= k < NUMBER_OF_PLAYERS ==>
          && players[k].hand == (if k < j then old(players[k].hand)[1..] else old(players[k].hand))
          && players[k].tricksWon == old(players[k].tricksWon)
        invariant leadingSuit == if j == 0 then None else Some(cardsPlayed[0].suit)
      {
        var played := players[j].PlayCard(0);
        var card := played.card;
        cardsPlayed := cardsPlayed + [card];
        if leadingSuit == None {
          leadingSuit := Some(card.suit);
        }
      }
    }

    /** One round: the players play their first cards, and the holder of the
        winning card gets the trick. When the hands are what is left of the
        hands dealt once `round` rounds are over, the cards played are card
        `round` of each dealt hand. */
    method PlayRound(ghost dealt: seq<seq<Card>>, ghost round: nat) returns (winner: nat)
      requires Valid() && CanPlay(dealt, round + 1) && |dealt| == NUMBER_OF_PLAYERS
      requires forall j :: 0 <= j < NUMBER_OF_PLAYERS ==> players[j].hand == dealt[j][round..]
      modifies players
      ensures Valid()
      ensures winner == TrickWinner(TrickCards(dealt, round), trumpSuit)
      ensures forall j :: 0 <= j < NUMBER_OF_PLAYERS ==>
        && players[j].hand == dealt[j][round + 1..]
        && players[j].tricksWon == old(players[j].tricksWon) + (if j == winner then 1 else 0)
    {
      var cardsPlayed, leadingSuit := PlayCards();
      assert cardsPlayed == TrickCards(dealt, round);
      LeadWinningCardPlayed(cardsPlayed, trumpSuit);
      var winningCard := DetermineWinningCard(cardsPlayed, leadingSuit, trumpSuit);
      winner := IndexOf(cardsPlayed, winningCard.value);
      players[winner].tricksWon := players[winner].tricksWon + 1;
    }

    /** Thirteen rounds played from the hands dealt: every hand loses its
        first thirteen cards and each round's winner gains one trick. */
    method PlayRounds(ghost dealt: seq<seq<Card>>)
      requires Valid() && |dealt| == NUMBER_OF_PLAYERS
      requires forall j :: 0 <= j < NUMBER_OF_PLAYERS ==> players[j].hand == dealt[j] && |dealt[j]| >= ROUNDS
      modifies players
      ensures Valid()
      ensures CanPlay(dealt, ROUNDS)
      ensures forall j :: 0 <= j < NUMBER_OF_PLAYERS ==> players[j].hand == dealt[j][ROUNDS..]
      ensures Tricks() == Add(old(Tricks()), Tally(Winners(dealt, trumpSuit, ROUNDS), NUMBER_OF_PLAYERS))
      ensures Sum(Tricks()) == Sum(old(Tricks())) + ROUNDS
    {
      ghost var tricks := Tricks();
      ghost var ws := Winners(dealt, trumpSuit, ROUNDS);
      for round := 0 to ROUNDS
        invariant forall j :: 0 <= j < NUMBER_OF_PLAYERS ==> players[j].hand == dealt[j][round..]
        invariant forall j :: 0 <= j < NUMBER_OF_PLAYERS ==>
          players[j].tricksWon == tricks[j] + Tally(ws[..round], NUMBER_OF_PLAYERS)[j]
      {
        var w := PlayRound(dealt, round);
        TallyStep(ws, round, NUMBER_OF_PLAYERS);
      }
      assert ws[..ROUNDS] == ws;
      TalliedTricks(Tricks(), tricks, ws);
    }

    /** A whole game: shuffle with perm, deal, bid with the offered amounts
        and the drawn trump suit, then play the thirteen rounds. */
    method StartGame(perm: seq<nat>, offers: seq<int>, trump: Suit)
      requires Valid() && IsPermutation(perm, NUMBER_OF_CARDS)
      requires |offers| == NUMBER_OF_PLAYERS && forall i :: 0 <= i < |offers| ==> 7 <= offers[i] <= 13
      modifies this, deck, players
      ensures Valid()
      ensures deck.deck == Permute(old(deck.deck), perm) && deck.currentCard == NUMBER_OF_CARDS
      ensures trumpSuit == Some(trump)
      ensures exists w ::
        && 0 <= w < NUMBER_OF_PLAYERS
        && bids == old(bids)[players[w] := offers[w]]
        && (forall i :: 0 <= i < NUMBER_OF_PLAYERS ==> offers[i] <= offers[w])
        && (forall i :: 0 <= i < w ==> offers[i] < offers[w])
      ensures forall j :: 0 <= j < NUMBER_OF_PLAYERS ==>
        players[j].hand == (old(players[j].hand) + DealtTo(deck.deck, j, ROUNDS))[ROUNDS..]
      ensures CanPlay(DealtOnto(old(Hands()), deck.deck), ROUNDS)
      ensures Tricks() == Add(old(Tricks()), Tally(Winners(DealtOnto(old(Hands()), deck.deck), Some(trump), ROUNDS), NUMBER_OF_PLAYERS))
      ensures Sum(Tricks()) == Sum(old(Tricks())) + ROUNDS
    {
      deck.Shuffle(perm);
      DealCards();
      var w, b := BiddingPhase(offers, trump);
      PlayRounds(DealtOnto(old(Hands()), deck.deck));
    }
  }
}
