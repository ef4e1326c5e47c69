/** A player: a name, the cards in hand in the order received, and the number
    of tricks won so far. */
module Players {
  import opened Cards

  /** What list.pop(index) does: hands back a card or raises IndexError. */
  datatype Popped = Played(card: Card) | IndexError

  /** Popping the card at i leaves the other cards: with the popped card, the
      hand holds the same multiset as before. */
  lemma PopKeepsCards(h: seq<Card>, i: nat)
    requires i < |h|
    ensures multiset(h[..i] + h[i + 1..]) + multiset{h[i]} == multiset(h)
  {
    assert h == h[..i] + [h[i]] + h[i + 1..];
  }

  class Player {
    const name: string
    var hand: seq<Card>
    var tricksWon: nat

    constructor (name: string)
      ensures this.name == name && hand == [] && tricksWon == 0
    {
      this.name := name;
      hand := [];
      tricksWon := 0;
    }

    /** Adds a card at the end of the hand. */
    method ReceiveCard(card: Card)
      modifies this
      ensures hand == old(hand) + [card]
      ensures tricksWon == old(tricksWon)
    {
      hand := hand + [card];
    }

    /** Removes and returns the card at cardIndex. As for a Python list, a
        negative index counts from the end; an index outside
        -|hand| .. |hand|-1 raises IndexError and leaves the hand alone. */
    method PlayCard(cardIndex: int) returns (r: Popped)
      modifies this
      ensures tricksWon == old(tricksWon)
      ensures -|old(hand)| <= cardIndex < |old(hand)| ==>
        var i := if cardIndex < 0 then cardIndex + |old(hand)| else cardIndex;
        && r == Played(old(hand)[i])
        && hand == old(hand)[..i] + old(hand)[i + 1..]
        && |hand| == |old(hand)| - 1
      ensures !(-|old(hand)| <= cardIndex < |old(hand)|) ==> r == IndexError && hand == old(hand)
    {
      if !(-|hand| <= cardIndex < |hand|) {
        return IndexError;
      }
      var i := if cardIndex < 0 then cardIndex + |hand| else cardIndex;
      r := Played(hand[i]);
      hand := hand[..i] + hand[i + 1..];
    }

    /** A bid is the amount handed to the player by the bidding strategy;
        it does not depend on the hand or the trick count. */
    function Bid(bidAmount: int): (b: int)
      ensures b == bidAmount
    {
      bidAmount
    }
  }
}
