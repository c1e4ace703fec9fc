/**
 * The deck builder of the card game: the colour catalogue, the number of
 * pairs per difficulty, the creation of two cards per colour and the
 * Fisher-Yates shuffle that runs in place over the new deck.
 */
module Deck {
  import opened Types
  import opened Seqs

  /** The fixed, ordered colour catalogue from which decks are drawn. */
  function Catalogue(): (colors: seq<GameColor>)
    ensures |colors| == 12
  {
    [
      GameColor("Red", "#FF6B6B"),
      GameColor("Blue", "#48DBFB"),
      GameColor("Green", "#1DD1A1"),
      GameColor("Yellow", "#FECA57"),
      GameColor("Purple", "#5F27CD"),
      GameColor("Orange", "#FF9F43"),
      GameColor("Pink", "#FF9FF3"),
      GameColor("Cyan", "#0ABDE3"),
      GameColor("Black", "#576574"),
      GameColor("White", "#C8D6E5"),
      GameColor("Brown", "#834C32"),
      GameColor("Lime", "#BADC58")
    ]
  }

  /** The number of colour pairs dealt at each difficulty. */
  function PairCount(d: Difficulty): (p: nat)
    ensures 0 < p <= |Catalogue()|
    ensures p == 3 || p == 6 || p == 9
  {
    match d
    case Easy => 3
    case Medium => 6
    case Hard => 9
  }

  /** The colours dealt at difficulty `d`: a prefix of the catalogue. */
  function Selected(d: Difficulty): (colors: seq<GameColor>)
    ensures |colors| == PairCount(d)
    ensures forall k :: 0 <= k < |colors| ==> colors[k] == Catalogue()[k]
  {
    Catalogue()[..PairCount(d)]
  }

  lemma CatalogueDistinct()
    ensures Distinct(Catalogue())
    ensures forall i, j :: 0 <= i < j < |Catalogue()| ==> Catalogue()[i].name != Catalogue()[j].name
  {
  }

  function CardColor(c: Card): GameColor { c.color }
  function CardId(c: Card): string { c.id }

  function ColorsOf(cards: seq<Card>): seq<GameColor> { Map(CardColor, cards) }
  function IdsOf(cards: seq<Card>): seq<string> { Map(CardId, cards) }

  /**
   * The deck before shuffling: for each colour in order, two face-down,
   * unmatched cards, the ids taken from `ids` in order.
   */
  function Paired(colors: seq<GameColor>, ids: seq<string>): (deck: seq<Card>)
    requires |ids| == 2 * |colors|
    ensures |deck| == 2 * |colors|
    ensures forall k :: 0 <= k < |deck| ==> deck[k] == Card(ids[k], colors[k / 2], false, false)
  {
    if colors == [] then []
    else [Card(ids[0], colors[0], false, false), Card(ids[1], colors[0], false, false)]
         + Paired(colors[1..], ids[2..])
  }

  /**
   * The pushing loop of the deck builder: a new array holding two cards for
   * each colour, written front to back.
   */
  method BuildPairs(colors: seq<GameColor>, ids: seq<string>) returns (a: array<Card>)
    requires |ids| == 2 * |colors|
    ensures fresh(a)
    ensures a[..] == Paired(colors, ids)
  {
    a := new Card[2 * |colors|];
    var c := 0;
    while c < |colors|
      invariant 0 <= c <= |colors|
      invariant forall k :: 0 <= k < 2 * c ==> a[k] == Card(ids[k], colors[k / 2], false, false)
    {
      a[2 * c] := Card(ids[2 * c], colors[c], false, false);
      a[2 * c + 1] := Card(ids[2 * c + 1], colors[c], false, false);
      c := c + 1;
    }
  }

  /** `s` with the elements at `i` and `j` exchanged. */
  function Swap<T>(s: seq<T>, i: nat, j: nat): (t: seq<T>)
    requires i < |s| && j < |s|
    ensures |t| == |s| && t[i] == s[j] && t[j] == s[i]
    ensures forall k :: 0 <= k < |s| && k != i && k != j ==> t[k] == s[k]
  {
    s[i := s[j]][j := s[i]]
  }

  /**
   * What the random source promises the shuffle: at step `i` the index
   * `swaps[i]` lies in 0..i (`swaps[0]` is never used).
   */
  predicate SwapsInRange(swaps: seq<nat>) {
    forall i :: 1 <= i < |swaps| ==> swaps[i] <= i
  }

  /** The shuffle loop from step `i` down to step 1; it keeps the length. */
  function ShuffleFrom<T>(s: seq<T>, swaps: seq<nat>, i: nat): (t: seq<T>)
    requires |swaps| == |s| && SwapsInRange(swaps) && i < |s|
    ensures |t| == |s|
    decreases i
  {
    if i == 0 then s else ShuffleFrom(Swap(s, i, swaps[i]), swaps, i - 1)
  }

  /** The whole Fisher-Yates loop: step i runs from |s| - 1 down to 1; it keeps the length. */
  function Shuffled<T>(s: seq<T>, swaps: seq<nat>): (t: seq<T>)
    requires |swaps| == |s| && SwapsInRange(swaps)
    ensures |t| == |s|
  {
    if |s| == 0 then s else ShuffleFrom(s, swaps, |s| - 1)
  }

  /** The in-place Fisher-Yates shuffle of the deck builder. */
  method Shuffle<T>(a: array<T>, swaps: seq<nat>)
    requires |swaps| == a.Length && SwapsInRange(swaps)
    modifies a
    ensures a[..] == Shuffled(old(a[..]), swaps)
    ensures multiset(a[..]) == multiset(old(a[..]))
  {
    if a.Length == 0 {
      return;
    }
    var i := a.Length - 1;
    while i > 0
      invariant 0 <= i < a.Length
      invariant ShuffleFrom(a[..], swaps, i) == Shuffled(old(a[..]), swaps)
    {
      var j := swaps[i];
      ghost var before := a[..];
      var t := a[i];
      a[i] := a[j];
      a[j] := t;
      assert a[..] == Swap(before, i, j);
      i := i - 1;
    }
    ShuffledPermutes(old(a[..]), swaps);
  }

  lemma SwapPermutes<T>(s: seq<T>, i: nat, j: nat)
    requires i < |s| && j < |s|
    ensures multiset(Swap(s, i, j)) == multiset(s)
  {
  }

  lemma {:induction false} ShuffleFromPermutes<T>(s: seq<T>, swaps: seq<nat>, i: nat)
    requires |swaps| == |s| && SwapsInRange(swaps) && i < |s|
    ensures multiset(ShuffleFrom(s, swaps, i)) == multiset(s)
    decreases i
  {
    if i > 0 {
      SwapPermutes(s, i, swaps[i]);
      ShuffleFromPermutes(Swap(s, i, swaps[i]), swaps, i - 1);
    }
  }

  /** The shuffle only reorders: same multiset of cards. */
  lemma ShuffledPermutes<T>(s: seq<T>, swaps: seq<nat>)
    requires |swaps| == |s| && SwapsInRange(swaps)
    ensures multiset(Shuffled(s, swaps)) == multiset(s)
  {
    if |s| > 0 {
      ShuffleFromPermutes(s, swaps, |s| - 1);
    }
  }

  lemma {:induction false} ShuffleFromMaps<T, U>(f: T -> U, s: seq<T>, swaps: seq<nat>, i: nat)
    requires |swaps| == |s| && SwapsInRange(swaps) && i < |s|
    ensures |ShuffleFrom(s, swaps, i)| == |s|
    ensures Map(f, ShuffleFrom(s, swaps, i)) == ShuffleFrom(Map(f, s), swaps, i)
    decreases i
  {
    if i > 0 {
      var t := Swap(s, i, swaps[i]);
      assert Map(f, t) == Swap(Map(f, s), i, swaps[i]);
      ShuffleFromMaps(f, t, swaps, i - 1);
    }
  }

  /** Shuffling and then projecting each card is projecting and then shuffling. */
  lemma ShuffledMaps<T, U>(f: T -> U, s: seq<T>, swaps: seq<nat>)
    requires |swaps| == |s| && SwapsInRange(swaps)
    ensures Map(f, Shuffled(s, swaps)) == Shuffled(Map(f, s), swaps)
  {
    if |s| > 0 {
      ShuffleFromMaps(f, s, swaps, |s| - 1);
    }
  }

  lemma {:induction false} ShuffleFromKeepsDistinct<T>(s: seq<T>, swaps: seq<nat>, i: nat)
    requires |swaps| == |s| && SwapsInRange(swaps) && i < |s|
    requires Distinct(s)
    ensures Distinct(ShuffleFrom(s, swaps, i))
    decreases i
  {
    if i > 0 {
      var j := swaps[i];
      var t := Swap(s, i, j);
      assert Distinct(t) by {
        forall p, q | 0 <= p < q < |t| ensures t[p] != t[q] {
          var sp := if p == i then j else if p == j then i else p;
          var sq := if q == i then j else if q == j then i else q;
          assert t[p] == s[sp] && t[q] == s[sq] && sp != sq;
        }
      }
      ShuffleFromKeepsDistinct(t, swaps, i - 1);
    }
  }

  /** Two copies of every colour of `colors`, in order. */
  function Doubled(colors: seq<GameColor>): seq<GameColor> {
    if colors == [] then [] else [colors[0], colors[0]] + Doubled(colors[1..])
  }

  lemma {:induction false} PairedColors(colors: seq<GameColor>, ids: seq<string>)
    requires |ids| == 2 * |colors|
    ensures ColorsOf(Paired(colors, ids)) == Doubled(colors)
    ensures multiset(Doubled(colors)) == multiset(colors) + multiset(colors)
  {
    if colors != [] {
      PairedColors(colors[1..], ids[2..]);
      var head := [Card(ids[0], colors[0], false, false), Card(ids[1], colors[0], false, false)];
      var tail := Paired(colors[1..], ids[2..]);
      MapConcat(CardColor, head, tail);
      assert ColorsOf(head)[0] == CardColor(head[0]) && ColorsOf(head)[1] == CardColor(head[1]);
      assert ColorsOf(head) == [colors[0], colors[0]];
      assert colors == [colors[0]] + colors[1..];
    }
  }

  /** `deck` holds exactly two cards of each colour of `colors` and no other card. */
  ghost predicate HoldsPairsOf(deck: seq<Card>, colors: seq<GameColor>) {
    forall c :: multiset(ColorsOf(deck))[c] == if c in colors then 2 else 0
  }

  /** The deck initGame deals at difficulty `d`, given the ids and the swap indices. */
  function NewDeck(d: Difficulty, ids: seq<string>, swaps: seq<nat>): (deck: seq<Card>)
    requires |ids| == 2 * PairCount(d)
    requires |swaps| == 2 * PairCount(d) && SwapsInRange(swaps)
    ensures |deck| == 2 * PairCount(d)
  {
    Shuffled(Paired(Selected(d), ids), swaps)
  }

  /**
   * The deck-building part of initGame: two cards per selected colour, then
   * the in-place shuffle.
   */
  method Deal(d: Difficulty, ids: seq<string>, swaps: seq<nat>) returns (deck: seq<Card>)
    requires |ids| == 2 * PairCount(d)
    requires |swaps| == 2 * PairCount(d) && SwapsInRange(swaps)
    ensures deck == NewDeck(d, ids, swaps)
  {
    var a := BuildPairs(Selected(d), ids);
    Shuffle(a, swaps);
    deck := a[..];
  }

  /** Shuffling the pair list of distinct colours keeps exactly two cards of each. */
  lemma ShuffledPairsHoldPairs(colors: seq<GameColor>, ids: seq<string>, swaps: seq<nat>)
    requires |ids| == 2 * |colors| && Distinct(colors)
    requires |swaps| == 2 * |colors| && SwapsInRange(swaps)
    ensures HoldsPairsOf(Shuffled(Paired(colors, ids), swaps), colors)
  {
    var paired := Paired(colors, ids);
    ShuffledMaps(CardColor, paired, swaps);
    ShuffledPermutes(ColorsOf(paired), swaps);
    PairedColors(colors, ids);
    forall c ensures multiset(ColorsOf(Shuffled(paired, swaps)))[c] == if c in colors then 2 else 0 {
      DistinctOccursOnce(colors, c);
    }
  }

  /** The pair list carries the ids in the order they were drawn. */
  lemma PairedIds(colors: seq<GameColor>, ids: seq<string>)
    requires |ids| == 2 * |colors|
    ensures IdsOf(Paired(colors, ids)) == ids
  {
    var paired := Paired(colors, ids);
    forall k | 0 <= k < |ids| ensures IdsOf(paired)[k] == ids[k] {
      assert IdsOf(paired)[k] == CardId(paired[k]);
    }
  }

  /** Shuffling the pair list keeps its ids pairwise distinct. */
  lemma ShuffledPairsKeepIds(colors: seq<GameColor>, ids: seq<string>, swaps: seq<nat>)
    requires |ids| == 2 * |colors| && Distinct(ids)
    requires |swaps| == 2 * |colors| && SwapsInRange(swaps)
    ensures Distinct(IdsOf(Shuffled(Paired(colors, ids), swaps)))
  {
    var paired := Paired(colors, ids);
    PairedIds(colors, ids);
    ShuffledMaps(CardId, paired, swaps);
    assert IdsOf(Shuffled(paired, swaps)) == Shuffled(ids, swaps);
    ShuffledKeepsDistinct(ids, swaps);
  }

  lemma ShuffledKeepsDistinct<T>(s: seq<T>, swaps: seq<nat>)
    requires |swaps| == |s| && SwapsInRange(swaps) && Distinct(s)
    ensures Distinct(Shuffled(s, swaps))
  {
    if |s| > 0 {
      ShuffleFromKeepsDistinct(s, swaps, |s| - 1);
    }
  }

  lemma NewDeckColors(d: Difficulty, ids: seq<string>, swaps: seq<nat>)
    requires |ids| == 2 * PairCount(d)
    requires |swaps| == 2 * PairCount(d) && SwapsInRange(swaps)
    ensures HoldsPairsOf(NewDeck(d, ids, swaps), Selected(d))
  {
    CatalogueDistinct();
    ShuffledPairsHoldPairs(Selected(d), ids, swaps);
  }

  lemma NewDeckIds(d: Difficulty, ids: seq<string>, swaps: seq<nat>)
    requires |ids| == 2 * PairCount(d) && Distinct(ids)
    requires |swaps| == 2 * PairCount(d) && SwapsInRange(swaps)
    ensures Distinct(IdsOf(NewDeck(d, ids, swaps)))
  {
    ShuffledPairsKeepIds(Selected(d), ids, swaps);
  }

  lemma NewDeckFaceDown(d: Difficulty, ids: seq<string>, swaps: seq<nat>)
    requires |ids| == 2 * PairCount(d)
    requires |swaps| == 2 * PairCount(d) && SwapsInRange(swaps)
    ensures |NewDeck(d, ids, swaps)| == 2 * PairCount(d)
    ensures forall k :: 0 <= k < |NewDeck(d, ids, swaps)| ==>
              !NewDeck(d, ids, swaps)[k].isFlipped && !NewDeck(d, ids, swaps)[k].isMatched
  {
    var paired := Paired(Selected(d), ids);
    var deck := NewDeck(d, ids, swaps);
    ShuffledPermutes(paired, swaps);
    forall k | 0 <= k < |deck| ensures !deck[k].isFlipped && !deck[k].isMatched {
      assert deck[k] in multiset(paired);
    }
  }

  /**
   * A new deck has 2p cards for the p pairs of its difficulty, two cards of
   * each of the first p catalogue colours and no other, all face down and
   * unmatched, with pairwise distinct ids.
   */
  lemma NewDeckContents(d: Difficulty, ids: seq<string>, swaps: seq<nat>)
    requires |ids| == 2 * PairCount(d) && Distinct(ids)
    requires |swaps| == 2 * PairCount(d) && SwapsInRange(swaps)
    ensures |NewDeck(d, ids, swaps)| == 2 * PairCount(d)
    ensures HoldsPairsOf(NewDeck(d, ids, swaps), Selected(d))
    ensures Distinct(IdsOf(NewDeck(d, ids, swaps)))
    ensures forall k :: 0 <= k < |NewDeck(d, ids, swaps)| ==>
              !NewDeck(d, ids, swaps)[k].isFlipped && !NewDeck(d, ids, swaps)[k].isMatched
  {
    NewDeckColors(d, ids, swaps);
    NewDeckIds(d, ids, swaps);
    NewDeckFaceDown(d, ids, swaps);
  }

  /** When every swap index equals its step, the deck stays in build order. */
  lemma {:induction false} IdentitySwapsKeepOrder<T>(s: seq<T>, swaps: seq<nat>, i: nat)
    requires |swaps| == |s| && SwapsInRange(swaps) && i < |s|
    requires forall k :: 1 <= k < |swaps| ==> swaps[k] == k
    ensures ShuffleFrom(s, swaps, i) == s
    decreases i
  {
    if i > 0 {
      assert Swap(s, i, swaps[i]) == s;
      IdentitySwapsKeepOrder(s, swaps, i - 1);
    }
  }
}
