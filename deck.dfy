/** The deck builder (`generateCardDeck`): the development version lays the
    ten animal symbols out twice, card i and card i + 10 forming a pair, with
    no shuffle. */
module Cards {

  /** The ten symbols, in the order the builder walks them. */
  const Animals: seq<string> := ["🐶", "🐱", "🐭", "🐹", "🐰", "🦊", "🐻", "🐼", "🐨", "🐘"]

  const PairCount: nat := 10
  const DeckSize: nat := 20

  /** A card's identity is its position in the deck; only the two flags ever change. */
  datatype Card = Card(value: string, flipped: bool, matched: bool)

  /** One face-down, unmatched card per value, in order. */
  function FaceDown(values: seq<string>): seq<Card> {
    seq(|values|, i requires 0 <= i < |values| => Card(values[i], false, false))
  }

  /** The deck the builder returns: the animals once, then once more. */
  function Deck(): (d: seq<Card>)
    ensures |d| == DeckSize == 2 * |Animals|
    ensures forall i :: 0 <= i < PairCount ==>
      d[i].value == d[i + PairCount].value == Animals[i]
    ensures forall i :: 0 <= i < |d| ==> !d[i].flipped && !d[i].matched
  {
    FaceDown(Animals) + FaceDown(Animals)
  }

  function Values(cards: seq<Card>): seq<string> {
    seq(|cards|, i requires 0 <= i < |cards| => cards[i].value)
  }

  predicate Distinct(s: seq<string>) {
    forall i, j :: 0 <= i < j < |s| ==> s[i] != s[j]
  }

  lemma AnimalsDistinct()
    ensures Distinct(Animals)
  {
  }

  /** In a sequence without repetitions, every element occurs exactly once. */
  lemma {:induction false} DistinctOccursOnce(s: seq<string>, v: string)
    requires Distinct(s)
    ensures multiset(s)[v] == if v in s then 1 else 0
    decreases |s|
  {
    if s != [] {
      assert s == [s[0]] + s[1..];
      assert Distinct(s[1..]) by {
        forall i, j | 0 <= i < j < |s[1..]| ensures s[1..][i] != s[1..][j] {
          assert s[1..][i] == s[i + 1] && s[1..][j] == s[j + 1];
        }
      }
      DistinctOccursOnce(s[1..], v);
      if v == s[0] {
        assert v !in s[1..] by {
          forall k | 0 <= k < |s[1..]| ensures s[1..][k] != v {
            assert s[1..][k] == s[k + 1];
          }
        }
      }
    }
  }

  /** Every animal occurs exactly twice in the deck and nothing else occurs. */
  lemma EachAnimalTwice()
    ensures forall a :: a in Animals ==> multiset(Values(Deck()))[a] == 2
    ensures forall v :: v in Values(Deck()) ==> v in Animals
  {
    var vs := Values(Deck());
    assert |vs| == |Animals + Animals|;
    forall i | 0 <= i < |vs| ensures vs[i] == (Animals + Animals)[i] {
      if i >= PairCount {
        assert Deck()[i] == FaceDown(Animals)[i - PairCount];
      }
    }
    assert vs == Animals + Animals;
    AnimalsDistinct();
    forall a | a in Animals ensures multiset(vs)[a] == 2 {
      DistinctOccursOnce(Animals, a);
    }
  }

  /** Builds the deck in a fresh array, writing both cards of pair `index` per step. */
  method GenerateCardDeck() returns (cards: array<Card>)
    ensures fresh(cards)
    ensures cards[..] == Deck()
  {
    cards := new Card[DeckSize];
    for index := 0 to PairCount
      invariant forall k :: 0 <= k < index ==> cards[k] == Card(Animals[k], false, false)
      invariant forall k :: PairCount <= k < PairCount + index ==>
        cards[k] == Card(Animals[k - PairCount], false, false)
    {
      var animal := Animals[index];
      cards[index] := Card(animal, false, false);
      cards[index + PairCount] := Card(animal, false, false);
    }
    forall k | 0 <= k < DeckSize ensures cards[k] == Deck()[k] {
      if k >= PairCount {
        assert Deck()[k] == FaceDown(Animals)[k - PairCount];
      }
    }
  }
}
