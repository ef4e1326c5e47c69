# Tarneeb engine in Dafny

This project models the game engine of `Python_game.py`, a simplified
four-player Tarneeb card game, and proves properties of the model.

- **Cards** (`cards.dfy`). The card ranking: a card's value is the position of its face in
  `FACES`, so Ace is 0 and King is 12, and the suit plays no part.
- **Decks** (`deck.dfy`). `DeckOfCards` is a class with the card list and the dealing
  cursor.
  - The constructor builds the canonical 52-card deck.
  - `Shuffle` resets the cursor and rearranges the cards by a permutation
    supplied by the caller.
  - `DealCard` hands out the card at the cursor, or `None` once the deck is
    used up.
- **Players** (`player.dfy`). `Player` is a class with a name, a hand and a trick counter.
  - `ReceiveCard` appends to the hand.
  - `PlayCard` is Python's `list.pop(index)`: a negative index counts from
    the end, and an index out of range raises `IndexError`.
  - `Bid` returns the amount it is given.
- **Tarneeb** (`tarneeb.dfy`). Trick resolution and the game.
  - `DetermineWinningCard` is a function: filter the played cards to the
    trump suit and to the led suit, then take Python's `max` by value, which
    keeps the first of equal maxima.
  - `TrickWinner` finds the seat that played the winning card.
  - `TarneebGame` is a class whose methods follow the source's loops:
    - `DealCards`: thirteen passes round the table.
    - `BiddingPhase`: a running maximum with a strict `>`.
    - `PlayCards` and `PlayRound`: one trick.
    - `PlayRounds`: thirteen tricks.
    - `StartGame`: shuffle, deal, bid, play.

The methods are specified against value-level functions of the hands:
- `DealtTo` is the round-robin layout. Seat `j` gets `d[j]`, `d[4+j]`,
  `d[8+j]`, and so on.
- `TrickCards` is card `r` of each hand.
- `Winners` is the winning seat of each round.
- `Tally` is the tricks per seat for a list of round winners.

The lemmas then show:
- a played trump always wins;
- without a trump, the highest card of the led suit wins;
- the winning seat is the first one holding the winning card;
- every round credits exactly one trick, so a game adds 13 to the total of
  the trick counters;
- a new deck holds all 52 distinct cards;
- shuffling keeps the same multiset of cards;
- after a full deal into empty hands, every trick consists of four distinct
  cards.

The randomness of the source comes in as parameters:
- `random.shuffle` becomes an index permutation `perm`.
- `random.randint(7, 13)` becomes one offered bid per seat, each in 7..13.
- `random.choice(Card.SUITS)` becomes the trump suit.

Two behaviours of the code are kept as they are:
- `start_game` does not clear hands, and `play_card(0)` plays from the front
  of the hand. So a game started with cards already in hand does not end with
  empty hands. Each such hand ends with as many cards as it held; a hand of
  at most 13 cards ends with the last ones dealt to it
  (`Tarneeb.HandAfterGame`).
- `deal_card` returns `None` on an exhausted deck; it does not raise.

## Model

| member | source | states |
|---|---|---|
| Cards.Card.Value | Python_game.py:20-23 | the value lies in 0..12 and is the index of the card's face in FACES |
| Cards.ValueOfFace | Python_game.py:20-23 | the card built from FACES[i] has value i, whatever its suit |
| Cards.AceLowestKingHighest | Python_game.py:20-23 | in every suit an Ace has value 0 and a King value 12 |
| Cards.ValueIgnoresSuit | Python_game.py:20-23 | two cards have the same value exactly when they have the same face, regardless of suit |
| Cards.FacesDistinct | Python_game.py:5 | the thirteen faces of FACES are pairwise different |
| Cards.SuitsDistinct | Python_game.py:6 | the four suits of SUITS are pairwise different |
| Cards.IndexOf | Python_game.py:23 | for an element of the list, the index found is in range and holds that element |
| Cards.IndexOfFirst | Python_game.py:137 | no position before the index found holds the element, so the lookup finds the first match |
| Decks.NewDeck | Python_game.py:40 | the canonical deck of the list comprehension; its contents are stated by NewDeckPositions, NewDeckDistinct and NewDeckComplete |
| Decks.NewDeckPositions | Python_game.py:40 | the canonical deck has 52 cards and position i holds the card of face i % 13 and suit i // 13 |
| Decks.NewDeckDistinct | Python_game.py:36-40 | a new deck holds 52 pairwise distinct cards |
| Decks.NewDeckComplete | Python_game.py:36-40 | every (face, suit) pair appears in a new deck |
| Decks.Permute | Python_game.py:44 | the shuffled order, with the random permutation as input; PermutePreservesMultiset and PermutePreservesDistinct state that it keeps the same cards |
| Decks.PermutePreservesMultiset | Python_game.py:42-44 | rearranging the deck by a permutation keeps exactly the same multiset of cards |
| Decks.PermutePreservesDistinct | Python_game.py:42-44 | rearranging a deck of distinct cards leaves them distinct |
| Decks.DeckOfCards.constructor | Python_game.py:38-40 | a new deck is the canonical 52-card deck with the cursor at 0 |
| Decks.DeckOfCards.Shuffle | Python_game.py:42-44 | the cursor is back at 0 and the deck is the old deck permuted by perm: same multiset, still 52 distinct cards |
| Decks.DeckOfCards.DealCard | Python_game.py:46-51 | below the end, returns the card at the cursor and advances the cursor by one. At the end, returns None and leaves the cursor. The cards are never changed |
| Players.Player.constructor | Python_game.py:64-67 | a new player has the given name, an empty hand and no tricks |
| Players.Player.ReceiveCard | Python_game.py:69-70 | the card is appended at the end of the hand and the trick count is unchanged |
| Players.Player.PlayCard | Python_game.py:72-73 | for an index in -len..len-1, returns the card at that position (negative indices count from the end) and removes it, so the hand shrinks by one. Otherwise IndexError, with the hand unchanged. The trick count is unchanged either way |
| Players.PopKeepsCards | Python_game.py:72-73 | the popped card together with the remaining hand is the same multiset as the hand before |
| Players.Player.Bid | Python_game.py:75-77 | the bid is exactly the amount offered |
| Tarneeb.Filter | Python_game.py:144-145 | the played cards of one suit, in played order; FilterMembers and FilterNonEmpty state what it keeps |
| Tarneeb.MaxByValue | Python_game.py:148-150 | `max` with the card value as key; MaxByValueIsFirstMax states that it returns the first card of highest value |
| Tarneeb.DetermineWinningCard | Python_game.py:143-150 | the winning card of a trick; DetermineWinningCardSpec, HighestTrumpWins and HighestLedCardWins state the trump-then-led-suit rule |
| Tarneeb.FilterMembers | Python_game.py:144-145 | the filtered list holds exactly the played cards of the requested suit |
| Tarneeb.FilterNonEmpty | Python_game.py:144-147 | the filtered list is non-empty exactly when a card of that suit was played |
| Tarneeb.MaxByValueIsFirstMax | Python_game.py:148-150 | max by value returns one of the cards, no card has a higher value, and every card before it has a strictly lower value (first of equal maxima) |
| Tarneeb.DetermineWinningCardSpec | Python_game.py:143-150 | a winning card exists iff a trump or a led-suit card was played, and it is a played card. If a trump was played, it is a trump no played trump outranks. Otherwise it is a led-suit card no led-suit card outranks |
| Tarneeb.HighestTrumpWins | Python_game.py:147-148 | a played trump that no other played trump outranks is the winning card |
| Tarneeb.HighestLedCardWins | Python_game.py:149-150 | with no trump played, a led-suit card that no other led-suit card outranks is the winning card |
| Tarneeb.LeadWinningCardPlayed | Python_game.py:131-136 | with the led suit taken from the first card played, a trick always has a winning card, and it was played |
| Tarneeb.TrickWinner | Python_game.py:136-137 | the winning seat is a seat of the trick; TrickWinnerHoldsWinningCard and TrickWinnerIsFirstTopCard state which seat it is |
| Tarneeb.TrickWinnerHoldsWinningCard | Python_game.py:136-137 | the winner's seat played the winning card and no earlier seat played it |
| Tarneeb.TrickWinnerIsFirstTopCard | Python_game.py:136-137 | every card played before the winner's in the winning suit is strictly lower, so the seat found is the first one holding a top card of that suit |
| Tarneeb.TrumpBeatsLedSuitExample | Python_game.py:143-150 | in the trick 9C, QC, 2S, KS with Spades trump, the King of Spades wins for seat 3 |
| Tarneeb.LedSuitWinsWithoutTrumpExample | Python_game.py:143-150 | in the trick 5D, 9D, 3C, 7H with Spades trump, the 9 of Diamonds wins for seat 1 |
| Tarneeb.TallyStep | Python_game.py:138 | one more round credits its winner with one trick and nobody else |
| Tarneeb.TallySum | Python_game.py:122-138 | the tricks credited for a list of round winners add up to the number of rounds |
| Tarneeb.TalliedTricks | Python_game.py:122-138 | counters that grew by the tally of the winners equal the old counters plus that tally, and their total grew by the number of rounds |
| Tarneeb.HandAfterGame | Python_game.py:94-98 | a hand that held h <= 13 cards before the game ends with h cards, the last h dealt to it, since play takes cards from the front |
| Tarneeb.DealtTrick | Python_game.py:100-103 | after a full deal into empty hands, round r's trick is the block d[4r..4r+4] of the deck, so its four cards are distinct when the deck's are |
| Tarneeb.TarneebGame.constructor | Python_game.py:88-92 | the game keeps the four players, holds a new canonical deck with the cursor at 0, no trump suit and no bids |
| Tarneeb.TarneebGame.DealCards | Python_game.py:100-103 | from cursor 0, seat j receives deck[j], deck[4+j], … (13 cards in order) appended to its hand. The cursor ends at 52, the deck and trick counts are unchanged, and no None is dealt |
| Tarneeb.TarneebGame.BiddingPhase | Python_game.py:105-118 | the winning bid is the highest offer and the winner is the first seat that offered it. The trump suit is the one drawn, and only the winner's bid is recorded |
| Tarneeb.TarneebGame.PlayCards | Python_game.py:124-133 | each seat in order plays the first card of its hand and loses it. The led suit is the suit of the first card played. Trick counts are unchanged |
| Tarneeb.TarneebGame.PlayRound | Python_game.py:124-138 | with hands dealt minus `round` cards, the winner is the trick winner of card `round` of each hand. Every hand loses one card, and only the winner's count rises, by one |
| Tarneeb.TarneebGame.PlayRounds | Python_game.py:120-141 | from hands of at least 13 cards, every hand loses its first 13. Each counter rises by the rounds its seat won, and the total rises by exactly 13 |
| Tarneeb.TarneebGame.StartGame | Python_game.py:94-98 | the deck is the old deck permuted and fully dealt. The trump is the one drawn, and the first highest offer is the only recorded bid. Each hand is what it held plus the dealt cards, minus the 13 played. The counters follow the round winners of that deal and their total rises by 13 |

## Left out

- Console output is not modelled: the `print` calls, `Card.__repr__`/`__str__`/`__format__`, `DeckOfCards.__str__`, `Player.show_hand`/`__str__`, and `calculate_scores`, which only prints the trick counts (Python_game.py:25-32, 53-59, 79-83, 111, 117, 123, 133, 139, 152-157).
- The `random` module is replaced by parameters: the shuffle's permutation, the offered bids and the trump suit.
- The module-level script that builds Alice, Bob, Charlie and David and starts a game (Python_game.py:160-167) is not modelled.
- Cards are values compared structurally; Python compares `Card` objects by identity. Both find the same seat in every trick. `max` keeps the first top card of the winning suit, and an earlier card equal to it would itself be an earlier top card (`Tarneeb.TrickWinnerIsFirstTopCard`).
- Tarneeb.TarneebGame.constructor: requires exactly four distinct players; the engine's loops are written for any list, but the game is defined for four seats.
- Tarneeb.TarneebGame.DealCards: requires the cursor at 0, as it is after a shuffle or a fresh deck. From a partly used deck Python would put `None` into hands, which the model's hands cannot hold.
- Tarneeb.TarneebGame.BiddingPhase: requires every offer in 7..13, the range `randint` draws from, so the branch where no bid beats 0 and the bidder stays `None` is not modelled.
- Tarneeb.TarneebGame.PlayRounds: requires at least 13 cards in every hand. With fewer, Python's `pop(0)` raises `IndexError` in the middle of the rounds; that crash is not modelled.
- Tarneeb.TarneebGame.PlayCards: requires a card in every hand, for the same reason.
- Tarneeb.TarneebGame.StartGame: requires a valid permutation of the 52 positions and offers in 7..13, as above.
- Cards.Card.Value: faces are an enumeration, so the `ValueError` that `FACES.index` raises for an unknown face cannot arise.
- `max` of an empty list (`ValueError`) is modelled as `DetermineWinningCard` returning `None`. With the led suit taken from the first card played this never happens (`Tarneeb.LeadWinningCardPlayed`).
