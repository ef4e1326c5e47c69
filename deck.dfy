/** The deck: 52 distinct cards in canonical order, shuffled by a supplied
    permutation and dealt one card at a time from a cursor. */
module Decks {
  import opened Cards

  const NUMBER_OF_CARDS: nat := 52

  /** The canonical deck: position i holds face i % 13 of suit i / 13
      (suits outer, faces inner). */
  function NewDeck(): seq<Card> {
    seq(NUMBER_OF_CARDS, i requires 0 <= i < NUMBER_OF_CARDS => Card(FACES[i % 13], SUITS[i / 13]))
  }

  /** Where a card sits in the canonical deck. */
  function Position(c: Card): nat {
    13 * SuitIndex(c.suit) + c.Value()
  }

  /** Every position of the canonical deck holds the card whose Position it is. */
  lemma NewDeckPositions()
    ensures |NewDeck()| == NUMBER_OF_CARDS
    ensures forall i :: 0 <= i < NUMBER_OF_CARDS ==> Position(NewDeck()[i]) == i
  {
    forall i | 0 <= i < NUMBER_OF_CARDS
      ensures Position(NewDeck()[i]) == i
    {
      SuitsDistinct();
      ValueOfFace(i % 13, SUITS[i / 13]);
    }
  }

  /** A new deck holds 52 pairwise distinct cards. */
  lemma NewDeckDistinct()
    ensures |NewDeck()| == NUMBER_OF_CARDS && Distinct(NewDeck())
  {
    NewDeckPositions();
    forall i, j | 0 <= i < j < NUMBER_OF_CARDS
      ensures NewDeck()[i] != NewDeck()[j]
    {
      assert Position(NewDeck()[i]) != Position(NewDeck()[j]);
    }
  }

  /** Every (face, suit) pair is in a new deck, at its Position. */
  lemma NewDeckComplete(c: Card)
    ensures Position(c) < NUMBER_OF_CARDS && NewDeck()[Position(c)] == c
  {
    var k, v := SuitIndex(c.suit), c.Value();
    var p := 13 * k + v;
    DivMod13(k, v);
    assert p < NUMBER_OF_CARDS;
    assert NewDeck()[p] == Card(FACES[p % 13], SUITS[p / 13]);
    assert FACES[v] == c.face && SUITS[k] == c.suit;
    assert Position(c) == p;
  }

  lemma DivMod13(k: nat, v: nat)
    requires v < 13
    ensures (13 * k + v) % 13 == v && (13 * k + v) / 13 == k
  {
  }

  /** p lists each of the indices 0..n-1 exactly once. */
  predicate IsPermutation(p: seq<nat>, n: nat) {
    && |p| == n
    && (forall i :: 0 <= i < n ==> p[i] < n)
    && (forall k :: 0 <= k < n ==> k in p)
    && Distinct(p)
  }

  /** The sequence whose i-th element is s[p[i]]. */
  function Permute<T>(s: seq<T>, p: seq<nat>): seq<T>
    requires IsPermutation(p, |s|)
  {
    seq(|s|, i requires 0 <= i < |s| => s[p[i]])
  }

  /** Removing the entry n-1 from a permutation of 0..n-1 leaves a permutation of 0..n-2. */
  lemma DropLargest(p: seq<nat>, n: nat, m: nat)
    requires n > 0 && IsPermutation(p, n) && m < n && p[m] == n - 1
    ensures IsPermutation(p[..m] + p[m + 1..], n - 1)
  {
    var q := p[..m] + p[m + 1..];
    assert forall i :: 0 <= i < n - 1 ==> q[i] == if i < m then p[i] else p[i + 1];
    forall k | 0 <= k < n - 1
      ensures k in q
    {
      var j := IndexOf(p, k);
      if j < m {
        assert q[j] == k;
      } else {
        assert q[j - 1] == k;
      }
    }
  }

  /** Permuting keeps the same multiset of elements. */
  lemma {:induction false} PermutePreservesMultiset<T>(s: seq<T>, p: seq<nat>)
    requires IsPermutation(p, |s|)
    ensures multiset(Permute(s, p)) == multiset(s)
    decreases |s|
  {
    var n := |s|;
    if n > 0 {
      var m := IndexOf(p, n - 1);
      var s', p' := s[..n - 1], p[..m] + p[m + 1..];
      PermuteSplit(s, p, m);
      PermutePreservesMultiset(s', p');
      MultisetInsert(Permute(s', p'), m, s[n - 1]);
      assert s == s' + [s[n - 1]];
    }
  }

  /** Inserting x anywhere adds exactly one x to the multiset. */
  lemma MultisetInsert<T>(r: seq<T>, m: nat, x: T)
    requires m <= |r|
    ensures multiset(r[..m] + [x] + r[m..]) == multiset(r) + multiset{x}
  {
    assert r == r[..m] + r[m..];
  }

  /** Permuting s by p is permuting s without its last element by p without
      the entry that names it, with that last element put back at m. */
  lemma PermuteSplit<T>(s: seq<T>, p: seq<nat>, m: nat)
    requires |s| > 0 && IsPermutation(p, |s|) && m < |s| && p[m] == |s| - 1
    ensures IsPermutation(p[..m] + p[m + 1..], |s| - 1)
    ensures var r' := Permute(s[..|s| - 1], p[..m] + p[m + 1..]);
            Permute(s, p) == r'[..m] + [s[|s| - 1]] + r'[m..]
  {
    var n := |s|;
    var s', p' := s[..n - 1], p[..m] + p[m + 1..];
    DropLargest(p, n, m);
    var r' := Permute(s', p');
    var lhs, rhs := Permute(s, p), r'[..m] + [s[n - 1]] + r'[m..];
    assert |lhs| == |rhs|;
    forall i | 0 <= i < n
      ensures lhs[i] == rhs[i]
    {
      if i < m {
        assert p'[i] == p[i];
      } else if i > m {
        assert p'[i - 1] == p[i];
      }
    }
  }

  /** Permuting a sequence of distinct elements leaves them distinct. */
  lemma PermutePreservesDistinct<T>(s: seq<T>, p: seq<nat>)
    requires IsPermutation(p, |s|) && Distinct(s)
    ensures Distinct(Permute(s, p))
  {
  }

  /** DeckOfCards: the card list and the cursor of the next card to deal. */
  class DeckOfCards {
    var deck: seq<Card>
    var currentCard: nat

    ghost predicate Valid()
      reads this
    {
      |deck| == NUMBER_OF_CARDS && Distinct(deck) && currentCard <= |deck|
    }

    constructor ()
      ensures Valid()
      ensures deck == NewDeck() && currentCard == 0
    {
      currentCard := 0;
      deck := NewDeck();
      NewDeckDistinct();
    }

    /** Resets the cursor and rearranges the deck by perm, the permutation
        the random source picked. */
    method Shuffle(perm: seq<nat>)
      requires Valid() && IsPermutation(perm, |deck|)
      modifies this
      ensures Valid()
      ensures currentCard == 0
      ensures deck == Permute(old(deck), perm)
      ensures multiset(deck) == multiset(old(deck))
    {
      currentCard := 0;
      PermutePreservesMultiset(deck, perm);
      PermutePreservesDistinct(deck, perm);
      deck := Permute(deck, perm);
    }

    /** Hands out the card at the cursor, or None once the deck is used up. */
    method DealCard() returns (card: Option<Card>)
      requires Valid()
      modifies this`currentCard
      ensures Valid()
      ensures old(currentCard) < |deck| ==> card == Some(deck[old(currentCard)]) && currentCard == old(currentCard) + 1
      ensures old(currentCard) == |deck| ==> card == None && currentCard == old(currentCard)
    {
      if currentCard < |deck| {
        card := Some(deck[currentCard]);
        currentCard := currentCard + 1;
        return;
      }
      return None;
    }
  }
}
