/**
 * The card-matching game: the state the game component keeps (deck, pending
 * reveals, move counter, lock, game-over flag, cumulative score, difficulty)
 * and the transitions that clicks, the resolution timer and the restart
 * buttons apply to it.
 */
module Game {
  import opened Types
  import opened Seqs
  import opened Deck
  import Sound

  /**
   * `checkForMatch`: two cards match exactly when their colour names are
   * equal, so two cards of one colour always match.
   */
  predicate IsMatch(a: Card, b: Card)
    ensures a.color == b.color ==> IsMatch(a, b)
  {
    a.color.name == b.color.name
  }

  /**
   * The click handler's update of the deck: every card whose id is `id` is
   * turned face up; no other card and no other field changes.
   */
  function FlipUp(cards: seq<Card>, id: string): (r: seq<Card>)
    ensures SameFaces(cards, r)
    ensures forall k :: 0 <= k < |r| ==> r[k].isMatched == cards[k].isMatched
    ensures forall k :: 0 <= k < |r| ==> (r[k].isFlipped <==> cards[k].isFlipped || cards[k].id == id)
  {
    seq(|cards|, k requires 0 <= k < |cards| =>
      if cards[k].id == id then cards[k].(isFlipped := true) else cards[k])
  }

  /**
   * The match branch's update: both cards of the pair become matched and
   * stay face up; every other card is left as it was.
   */
  function MarkMatched(cards: seq<Card>, id1: string, id2: string): (r: seq<Card>)
    ensures SameFaces(cards, r)
    ensures forall k :: 0 <= k < |r| && (cards[k].id == id1 || cards[k].id == id2) ==>
              r[k].isMatched && r[k].isFlipped
    ensures forall k :: 0 <= k < |r| && cards[k].id != id1 && cards[k].id != id2 ==> r[k] == cards[k]
  {
    seq(|cards|, k requires 0 <= k < |cards| =>
      if cards[k].id == id1 || cards[k].id == id2
      then cards[k].(isMatched := true, isFlipped := true) else cards[k])
  }

  /**
   * The mismatch branch's update: both cards of the pair are turned face
   * down, keeping their matched flag; every other card is left as it was.
   */
  function FlipDown(cards: seq<Card>, id1: string, id2: string): (r: seq<Card>)
    ensures SameFaces(cards, r)
    ensures forall k :: 0 <= k < |r| && (cards[k].id == id1 || cards[k].id == id2) ==>
              !r[k].isFlipped && r[k].isMatched == cards[k].isMatched
    ensures forall k :: 0 <= k < |r| && cards[k].id != id1 && cards[k].id != id2 ==> r[k] == cards[k]
  {
    seq(|cards|, k requires 0 <= k < |cards| =>
      if cards[k].id == id1 || cards[k].id == id2 then cards[k].(isFlipped := false) else cards[k])
  }

  /** The game-over test: every card of the deck is matched. */
  predicate AllMatched(cards: seq<Card>) {
    forall k :: 0 <= k < |cards| ==> cards[k].isMatched
  }

  /** With distinct ids, no two cards of the deck carry the same id. */
  lemma IdsSeparateCards(cards: seq<Card>)
    requires Distinct(IdsOf(cards))
    ensures forall a, b :: 0 <= a < |cards| && 0 <= b < |cards| && a != b ==> cards[a].id != cards[b].id
  {
    forall a, b | 0 <= a < |cards| && 0 <= b < |cards| && a != b ensures cards[a].id != cards[b].id {
      assert IdsOf(cards)[a] == CardId(cards[a]) && IdsOf(cards)[b] == CardId(cards[b]);
    }
  }

  /** With unique ids, flipping by id flips exactly the card at index `i`. */
  lemma FlipUpAt(cards: seq<Card>, i: nat)
    requires Distinct(IdsOf(cards)) && i < |cards|
    ensures FlipUp(cards, cards[i].id) == cards[i := cards[i].(isFlipped := true)]
  {
    IdsSeparateCards(cards);
  }

  /** With unique ids, the match update touches exactly the cards at `i` and `j`. */
  lemma MarkMatchedAt(cards: seq<Card>, i: nat, j: nat)
    requires Distinct(IdsOf(cards)) && i < |cards| && j < |cards| && i != j
    ensures MarkMatched(cards, cards[i].id, cards[j].id)
            == cards[i := cards[i].(isMatched := true, isFlipped := true)]
                    [j := cards[j].(isMatched := true, isFlipped := true)]
  {
    IdsSeparateCards(cards);
  }

  /** With unique ids, the mismatch update touches exactly the cards at `i` and `j`. */
  lemma FlipDownAt(cards: seq<Card>, i: nat, j: nat)
    requires Distinct(IdsOf(cards)) && i < |cards| && j < |cards| && i != j
    ensures FlipDown(cards, cards[i].id, cards[j].id)
            == cards[i := cards[i].(isFlipped := false)][j := cards[j].(isFlipped := false)]
  {
    IdsSeparateCards(cards);
  }

  /** `s` and `t` show the same cards in the same places, flags aside. */
  predicate SameFaces(s: seq<Card>, t: seq<Card>) {
    |s| == |t| && forall k :: 0 <= k < |s| ==> s[k].id == t[k].id && s[k].color == t[k].color
  }

  /**
   * `cards` is a deal for difficulty `d`: two cards of each colour dealt at
   * `d` and no other, with unique ids.
   */
  ghost predicate DealtFor(cards: seq<Card>, d: Difficulty) {
    && |cards| == 2 * PairCount(d)
    && HoldsPairsOf(cards, Selected(d))
    && Distinct(IdsOf(cards))
  }

  /** Every card of a deal has one of the colours dealt at `d`. */
  lemma DealtColour(cards: seq<Card>, d: Difficulty, a: nat)
    requires DealtFor(cards, d) && a < |cards|
    ensures cards[a].color in Selected(d)
  {
    assert ColorsOf(cards)[a] == CardColor(cards[a]);
    assert multiset(ColorsOf(cards))[cards[a].color] > 0;
  }

  /**
   * In a deal, the name test of `checkForMatch` is the colour test: two
   * cards match exactly when they are of one colour, because no two
   * catalogue colours share a name.
   */
  lemma MatchIsSameColour(cards: seq<Card>, d: Difficulty, a: nat, b: nat)
    requires DealtFor(cards, d) && a < |cards| && b < |cards|
    ensures IsMatch(cards[a], cards[b]) <==> cards[a].color == cards[b].color
  {
    DealtColour(cards, d, a);
    DealtColour(cards, d, b);
    CatalogueDistinct();
    var colors := Selected(d);
    var p :| 0 <= p < |colors| && colors[p] == cards[a].color;
    var q :| 0 <= q < |colors| && colors[q] == cards[b].color;
    assert colors[p] == Catalogue()[p] && colors[q] == Catalogue()[q];
  }

  /** Changing only the flags of cards keeps a deal a deal. */
  lemma SameFacesKeepDeal(s: seq<Card>, t: seq<Card>, d: Difficulty)
    requires SameFaces(s, t) && DealtFor(s, d)
    ensures DealtFor(t, d)
  {
    forall k | 0 <= k < |s| ensures ColorsOf(s)[k] == ColorsOf(t)[k] {
      assert ColorsOf(s)[k] == CardColor(s[k]) && ColorsOf(t)[k] == CardColor(t[k]);
    }
    assert ColorsOf(s) == ColorsOf(t);
    forall k | 0 <= k < |s| ensures IdsOf(s)[k] == IdsOf(t)[k] {
      assert IdsOf(s)[k] == CardId(s[k]) && IdsOf(t)[k] == CardId(t[k]);
    }
    assert IdsOf(s) == IdsOf(t);
  }

  lemma NewDeckIsDeal(d: Difficulty, ids: seq<string>, swaps: seq<nat>)
    requires DealOracle(d, ids, swaps)
    ensures DealtFor(NewDeck(d, ids, swaps), d)
    ensures |NewDeck(d, ids, swaps)| > 0
    ensures forall k :: 0 <= k < |NewDeck(d, ids, swaps)| ==>
              !NewDeck(d, ids, swaps)[k].isFlipped && !NewDeck(d, ids, swaps)[k].isMatched
  {
    NewDeckContents(d, ids, swaps);
  }

  /** What the id source and the random source supply for a deal at difficulty `d`. */
  predicate DealOracle(d: Difficulty, ids: seq<string>, swaps: seq<nat>) {
    && |ids| == 2 * PairCount(d) && Distinct(ids)
    && |swaps| == 2 * PairCount(d) && SwapsInRange(swaps)
  }

  /**
   * The game-state invariant, over the values of the state's fields: the
   * deck is a deal for `d`; at most two cards are pending, the lock is set
   * exactly when two are; each pending card is face up and unmatched at its
   * deck position and recorded as it was when clicked; every other face-up
   * card is matched, and every matched card is face up; the game is over
   * exactly when every card is matched.
   */
  ghost predicate Consistent(d: Difficulty, cards: seq<Card>, flipped: seq<Card>,
                             pendingAt: seq<nat>, locked: bool, over: bool)
  {
    && DealtFor(cards, d)
    && |flipped| <= 2 && |pendingAt| == |flipped|
    && (locked <==> |flipped| == 2)
    && (forall m :: 0 <= m < |pendingAt| ==>
          && pendingAt[m] < |cards|
          && cards[pendingAt[m]].isFlipped && !cards[pendingAt[m]].isMatched
          && flipped[m] == cards[pendingAt[m]].(isFlipped := false))
    && (|pendingAt| == 2 ==> pendingAt[0] != pendingAt[1])
    && (forall k :: 0 <= k < |cards| && cards[k].isFlipped && !cards[k].isMatched ==> k in pendingAt)
    && (forall k :: 0 <= k < |cards| && cards[k].isMatched ==> cards[k].isFlipped)
    && (over <==> AllMatched(cards))
  }

  /** A fresh deal with nothing pending is consistent. */
  lemma DealIsConsistent(d: Difficulty, ids: seq<string>, swaps: seq<nat>)
    requires DealOracle(d, ids, swaps)
    ensures Consistent(d, NewDeck(d, ids, swaps), [], [], false, false)
  {
    NewDeckIsDeal(d, ids, swaps);
    assert !NewDeck(d, ids, swaps)[0].isMatched;
  }

  /** Turning up an unguarded card keeps the state consistent. */
  lemma FlipKeepsConsistent(d: Difficulty, cards: seq<Card>, flipped: seq<Card>,
                            pendingAt: seq<nat>, over: bool, i: nat)
    requires Consistent(d, cards, flipped, pendingAt, false, over)
    requires i < |cards| && !cards[i].isFlipped && !cards[i].isMatched && !over
    ensures Consistent(d, cards[i := cards[i].(isFlipped := true)], flipped + [cards[i]],
                       pendingAt + [i], |flipped| + 1 == 2, over)
  {
    var cards' := cards[i := cards[i].(isFlipped := true)];
    SameFacesKeepDeal(cards, cards', d);
    assert !AllMatched(cards');
  }

  /** Resolving a matched pair keeps the state consistent, game over iff all matched. */
  lemma MatchKeepsConsistent(d: Difficulty, cards: seq<Card>, flipped: seq<Card>,
                             pendingAt: seq<nat>)
    requires Consistent(d, cards, flipped, pendingAt, true, false)
    ensures var i0, i1 := pendingAt[0], pendingAt[1];
            var cards' := cards[i0 := cards[i0].(isMatched := true, isFlipped := true)]
                               [i1 := cards[i1].(isMatched := true, isFlipped := true)];
            Consistent(d, cards', [], [], false, AllMatched(cards'))
  {
    var i0, i1 := pendingAt[0], pendingAt[1];
    var cards' := cards[i0 := cards[i0].(isMatched := true, isFlipped := true)]
                       [i1 := cards[i1].(isMatched := true, isFlipped := true)];
    SameFacesKeepDeal(cards, cards', d);
  }

  /** Turning back a mismatched pair keeps the state consistent; the game goes on. */
  lemma MismatchKeepsConsistent(d: Difficulty, cards: seq<Card>, flipped: seq<Card>,
                                pendingAt: seq<nat>)
    requires Consistent(d, cards, flipped, pendingAt, true, false)
    ensures var i0, i1 := pendingAt[0], pendingAt[1];
            var cards' := cards[i0 := cards[i0].(isFlipped := false)][i1 := cards[i1].(isFlipped := false)];
            Consistent(d, cards', [], [], false, false)
  {
    var i0, i1 := pendingAt[0], pendingAt[1];
    var cards' := cards[i0 := cards[i0].(isFlipped := false)][i1 := cards[i1].(isFlipped := false)];
    SameFacesKeepDeal(cards, cards', d);
    assert !cards'[i0].isMatched;
  }

  class Game {
    var difficulty: Difficulty
    var score: nat
    var cards: seq<Card>
    var flippedCards: seq<Card>
    var moves: nat
    var isGameOver: bool
    var isLocked: bool
    /** The deck positions of the pending cards, in reveal order. */
    ghost var pendingAt: seq<nat>
    /** The platform speech synthesiser; null when the platform has none. */
    const synth: Sound.SpeechSynthesis?

    ghost predicate Valid()
      reads this
    {
      Consistent(difficulty, cards, flippedCards, pendingAt, isLocked, isGameOver)
    }

    /** The click guard: a click on card `i` is ignored in these states. */
    predicate ClickIgnored(i: nat)
      reads this
      requires i < |cards|
      ensures Valid() && |flippedCards| == 2 ==> ClickIgnored(i)
      ensures Valid() && cards[i].isFlipped ==> ClickIgnored(i)
    {
      isLocked || cards[i].isFlipped || cards[i].isMatched || isGameOver
    }

    /**
     * The component's first render: EASY, score 0, and the mount effect's
     * deal for EASY.
     */
    constructor (synth: Sound.SpeechSynthesis?, ids: seq<string>, swaps: seq<nat>)
      requires DealOracle(Easy, ids, swaps)
      ensures Valid() && this.synth == synth
      ensures difficulty == Easy && score == 0
      ensures cards == NewDeck(Easy, ids, swaps)
      ensures flippedCards == [] && moves == 0 && !isGameOver && !isLocked
    {
      this.synth := synth;
      difficulty := Easy;
      score := 0;
      cards := [];
      flippedCards := [];
      pendingAt := [];
      moves := 0;
      isGameOver := false;
      isLocked := false;
      new;
      InitGame(ids, swaps);
    }

    /**
     * `initGame`: deals a new shuffled deck for the current difficulty and
     * clears the per-game state; the score is kept.
     */
    method InitGame(ids: seq<string>, swaps: seq<nat>)
      requires DealOracle(difficulty, ids, swaps)
      modifies this
      ensures score == old(score) && difficulty == old(difficulty)
      ensures Valid()
      ensures cards == NewDeck(difficulty, ids, swaps)
      ensures flippedCards == [] && moves == 0 && !isGameOver && !isLocked
    {
      var deck := Deal(difficulty, ids, swaps);
      DealIsConsistent(difficulty, ids, swaps);
      cards := deck;
      flippedCards := [];
      pendingAt := [];
      moves := 0;
      isGameOver := false;
      isLocked := false;
    }

    /**
     * `handleCardClick` on the card at index `i`, with the synchronous part
     * of `checkForMatch` when it is the second pending card.
     */
    method Click(i: nat)
      requires Valid() && i < |cards|
      modifies this, synth
      ensures Valid()
      ensures difficulty == old(difficulty) && isGameOver == old(isGameOver)
      ensures synth != null ==> synth.voices == old(synth.voices)
      ensures old(ClickIgnored(i)) ==>
                && cards == old(cards) && flippedCards == old(flippedCards)
                && moves == old(moves) && isLocked == old(isLocked) && score == old(score)
                && (synth != null ==> synth.queue == old(synth.queue))
      ensures !old(ClickIgnored(i)) ==>
                && cards == old(cards)[i := old(cards[i]).(isFlipped := true)]
                && flippedCards == old(flippedCards) + [old(cards[i])]
                && pendingAt == old(pendingAt) + [i]
                && isLocked == (|flippedCards| == 2)
                && moves == old(moves) + (if |flippedCards| == 2 then 1 else 0)
      ensures var scored := !old(ClickIgnored(i)) && |flippedCards| == 2
                            && IsMatch(flippedCards[0], flippedCards[1]);
              && score == old(score) + (if scored then 100 else 0)
              && (synth != null ==>
                    synth.queue == if scored
                                   then [Sound.ColorAnnouncement(flippedCards[0].color.name, synth.voices)]
                                   else old(synth.queue))
    {
      if isLocked || cards[i].isFlipped || cards[i].isMatched || isGameOver {
        return;
      }
      Reveal(i);
      if |flippedCards| == 2 {
        isLocked := true;
        moves := moves + 1;
        CheckForMatch(flippedCards[0], flippedCards[1]);
      }
    }

    /**
     * The first update of `handleCardClick`: the clicked card is turned up in
     * the deck and appended, as it was before the flip, to the pending list.
     * The state is consistent once the lock follows the pending count.
     */
    method Reveal(i: nat)
      requires Valid() && i < |cards| && !ClickIgnored(i)
      modifies this`cards, this`flippedCards, this`pendingAt
      ensures cards == old(cards)[i := old(cards[i]).(isFlipped := true)]
      ensures flippedCards == old(flippedCards) + [old(cards[i])] && pendingAt == old(pendingAt) + [i]
      ensures Consistent(difficulty, cards, flippedCards, pendingAt, |flippedCards| == 2, isGameOver)
    {
      var clicked := cards[i];
      FlipUpAt(cards, i);
      FlipKeepsConsistent(difficulty, cards, flippedCards, pendingAt, isGameOver, i);
      cards := FlipUp(cards, clicked.id);
      flippedCards := flippedCards + [clicked];
      pendingAt := pendingAt + [i];
    }

    /**
     * The part of `checkForMatch` that runs at once: on a match the colour
     * is announced and the score grows by 100; on a mismatch only the fail
     * tone plays, which is not modelled. The card updates wait for `Resolve`.
     */
    method CheckForMatch(card1: Card, card2: Card)
      modifies this`score, synth
      ensures score == old(score) + (if IsMatch(card1, card2) then 100 else 0)
      ensures synth != null ==> synth.voices == old(synth.voices)
      ensures synth != null ==> synth.queue == if IsMatch(card1, card2)
                                then [Sound.ColorAnnouncement(card1.color.name, synth.voices)]
                                else old(synth.queue)
    {
      if IsMatch(card1, card2) {
        Sound.SpeakColor(synth, card1.color.name);
        score := score + 100;
      }
    }

    /**
     * The timer continuation of `checkForMatch`: on a match both cards are
     * marked matched and the game ends if every card is; on a mismatch both
     * cards are turned back. Either way the pending list is cleared and the
     * lock released.
     */
    method Resolve()
      requires Valid() && isLocked
      modifies this
      ensures Valid()
      ensures old(pendingAt[0]) != old(pendingAt[1])
      ensures IsMatch(old(flippedCards[0]), old(flippedCards[1])) ==>
                cards == old(cards)[old(pendingAt[0]) := old(cards[pendingAt[0]]).(isMatched := true)]
                                   [old(pendingAt[1]) := old(cards[pendingAt[1]]).(isMatched := true)]
      ensures !IsMatch(old(flippedCards[0]), old(flippedCards[1])) ==>
                cards == old(cards)[old(pendingAt[0]) := old(cards[pendingAt[0]]).(isFlipped := false)]
                                   [old(pendingAt[1]) := old(cards[pendingAt[1]]).(isFlipped := false)]
      ensures flippedCards == [] && !isLocked
      ensures moves == old(moves) && score == old(score) && difficulty == old(difficulty)
      ensures isGameOver <==> AllMatched(cards)
      ensures isGameOver ==> IsMatch(old(flippedCards[0]), old(flippedCards[1]))
    {
      var card1, card2 := flippedCards[0], flippedCards[1];
      ghost var i0, i1 := pendingAt[0], pendingAt[1];
      assert card1.id == cards[i0].id && card2.id == cards[i1].id;
      if IsMatch(card1, card2) {
        var matchedCards := MarkMatched(cards, card1.id, card2.id);
        MarkMatchedAt(cards, i0, i1);
        MatchKeepsConsistent(difficulty, cards, flippedCards, pendingAt);
        cards := matchedCards;
        if AllMatched(matchedCards) {
          isGameOver := true;
        }
      } else {
        var resetCards := FlipDown(cards, card1.id, card2.id);
        FlipDownAt(cards, i0, i1);
        MismatchKeepsConsistent(difficulty, cards, flippedCards, pendingAt);
        cards := resetCards;
      }
      flippedCards := [];
      pendingAt := [];
      isLocked := false;
    }

    /** 'Play Again' on the win dialog: a new deal, moves back to 0, score kept. */
    method Restart(ids: seq<string>, swaps: seq<nat>)
      requires Valid() && isGameOver
      requires DealOracle(difficulty, ids, swaps)
      modifies this
      ensures score == old(score) && difficulty == old(difficulty)
      ensures Valid()
      ensures cards == NewDeck(difficulty, ids, swaps)
      ensures flippedCards == [] && moves == 0 && !isGameOver && !isLocked
    {
      InitGame(ids, swaps);
    }

    /** The reset button: score back to 0 and a new deal. */
    method FullReset(ids: seq<string>, swaps: seq<nat>)
      requires Valid() && !isLocked
      requires DealOracle(difficulty, ids, swaps)
      modifies this
      ensures score == 0 && difficulty == old(difficulty)
      ensures Valid()
      ensures cards == NewDeck(difficulty, ids, swaps)
      ensures flippedCards == [] && moves == 0 && !isGameOver && !isLocked
    {
      score := 0;
      InitGame(ids, swaps);
    }

    /**
     * A difficulty button: a different difficulty deals a new deck for it
     * (the score is kept); the current one changes nothing.
     */
    method SelectDifficulty(d: Difficulty, ids: seq<string>, swaps: seq<nat>)
      requires Valid() && !isLocked
      requires d != difficulty ==> DealOracle(d, ids, swaps)
      modifies this
      ensures Valid() && difficulty == d && score == old(score)
      ensures d == old(difficulty) ==>
                && cards == old(cards) && flippedCards == old(flippedCards) && moves == old(moves)
                && isGameOver == old(isGameOver) && isLocked == old(isLocked)
      ensures d != old(difficulty) ==>
                && cards == NewDeck(d, ids, swaps)
                && flippedCards == [] && moves == 0 && !isGameOver && !isLocked
    {
      if d != difficulty {
        difficulty := d;
        InitGame(ids, swaps);
      }
    }
  }
}
