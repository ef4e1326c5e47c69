/** Cards: the thirteen faces, the four suits, and the rank of a card.
    A card's rank is the position of its face in FACES; the suit plays no part. */
module Cards {

  datatype Face = Ace | Two | Three | Four | Five | Six | Seven | Eight | Nine | Ten | Jack | Queen | King

  datatype Suit = Hearts | Diamonds | Clubs | Spades

  /** The faces in table order: Ace is lowest, King is highest. */
  const FACES: seq<Face> := [Ace, Two, Three, Four, Five, Six, Seven, Eight, Nine, Ten, Jack, Queen, King]

  /** The suits in the order the canonical deck lists them. */
  const SUITS: seq<Suit> := [Hearts, Diamonds, Clubs, Spades]

  /** A value or Python's None. */
  datatype Option<T> = None | Some(value: T)

  predicate Distinct<T(==)>(s: seq<T>) {
    forall i, j :: 0 <= i < j < |s| ==> s[i] != s[j]
  }

  /** Position of the first occurrence of x in s (Python's list.index). */
  function IndexOf<T(==)>(s: seq<T>, x: T): (i: nat)
    requires x in s
    ensures i < |s| && s[i] == x
  {
    if s[0] == x then 0 else 1 + IndexOf(s[1..], x)
  }

  /** No element before IndexOf(s, x) is x. */
  lemma {:induction false} IndexOfFirst<T>(s: seq<T>, x: T)
    requires x in s
    ensures forall k :: 0 <= k < IndexOf(s, x) ==> s[k] != x
  {
    if s[0] != x {
      IndexOfFirst(s[1..], x);
    }
  }

  lemma SuitListed(s: Suit)
    ensures s in SUITS
  {
  }

  datatype Card = Card(face: Face, suit: Suit) {
    /** The rank used to compare cards: the index of the face in FACES. */
    function Value(): (v: nat)
      ensures v < |FACES| && FACES[v] == face
    {
      match face
      case Ace => 0
      case Two => 1
      case Three => 2
      case Four => 3
      case Five => 4
      case Six => 5
      case Seven => 6
      case Eight => 7
      case Nine => 8
      case Ten => 9
      case Jack => 10
      case Queen => 11
      case King => 12
    }
  }

  lemma FacesDistinct()
    ensures Distinct(FACES)
  {
  }

  lemma SuitsDistinct()
    ensures Distinct(SUITS)
  {
  }

  /** The card built from FACES[i] has rank i, whatever its suit. */
  lemma ValueOfFace(i: nat, s: Suit)
    requires i < |FACES|
    ensures Card(FACES[i], s).Value() == i
  {
    FacesDistinct();
  }

  /** Ace ranks lowest (0) and King highest (12), in every suit. */
  lemma AceLowestKingHighest(s: Suit)
    ensures Card(Ace, s).Value() == 0
    ensures Card(King, s).Value() == |FACES| - 1 == 12
  {
    ValueOfFace(0, s);
    ValueOfFace(12, s);
  }

  /** The rank does not depend on the suit, and the rank determines the face. */
  lemma ValueIgnoresSuit(c1: Card, c2: Card)
    ensures c1.Value() == c2.Value() <==> c1.face == c2.face
  {
    FacesDistinct();
  }

  /** Index of a suit in SUITS. */
  function SuitIndex(s: Suit): (k: nat)
    ensures k < |SUITS| && SUITS[k] == s
  {
    SuitListed(s);
    IndexOf(SUITS, s)
  }
}
