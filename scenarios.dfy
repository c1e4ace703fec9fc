/**
 * Two short games on the Easy deck, with the shuffle oracle choosing
 * `j == i` at every step so that the deck stays in build order:
 * Red, Red, Blue, Blue, Green, Green.
 */
module Scenarios {
  import opened Types
  import opened Deck
  import Game

  const EasyIds: seq<string> := ["c0", "c1", "c2", "c3", "c4", "c5"]
  const IdentitySwaps: seq<nat> := [0, 1, 2, 3, 4, 5]

  /** Six distinct ids and in-range swaps: a legal oracle for an Easy deal. */
  lemma EasyOracle()
    ensures Game.DealOracle(Easy, EasyIds, IdentitySwaps)
  {
  }

  /** The identity oracle leaves the Easy deck in build order. */
  lemma EasyDeckUnshuffled()
    ensures Game.DealOracle(Easy, EasyIds, IdentitySwaps)
    ensures NewDeck(Easy, EasyIds, IdentitySwaps) == Paired(Selected(Easy), EasyIds)
  {
    EasyOracle();
    IdentitySwapsKeepOrder(Paired(Selected(Easy), EasyIds), IdentitySwaps, 5);
  }

  /**
   * In build order the first two cards share a colour, the third has
   * another, and all start face down.
   */
  lemma EasyDeckInOrder()
    ensures Game.DealOracle(Easy, EasyIds, IdentitySwaps)
    ensures var deck := NewDeck(Easy, EasyIds, IdentitySwaps);
      && |deck| == 6
      && deck[0].color == deck[1].color && deck[0].color.name != deck[2].color.name
      && !deck[0].isFlipped && !deck[1].isFlipped && !deck[2].isFlipped
      && !deck[0].isMatched && !deck[1].isMatched && !deck[2].isMatched
  {
    EasyDeckUnshuffled();
    CatalogueDistinct();
    var deck := Paired(Selected(Easy), EasyIds);
    assert deck[0].color == Catalogue()[0] && deck[1].color == Catalogue()[0];
    assert deck[2].color == Catalogue()[1];
  }

  /**
   * Two clicks on two different face-down cards of an idle game make one
   * move: both cards are turned up, the board locks, and the score grows by
   * 100 exactly when their colours match.
   */
  method TurnOverPair(g: Game.Game, a: nat, b: nat)
    requires g.Valid() && !g.isLocked && !g.isGameOver && g.flippedCards == []
    requires a < |g.cards| && b < |g.cards| && a != b
    requires !g.cards[a].isFlipped && !g.cards[b].isFlipped
    modifies g, g.synth
    ensures g.Valid() && g.isLocked && g.isGameOver == old(g.isGameOver)
    ensures g.cards == old(g.cards)[a := old(g.cards[a]).(isFlipped := true)]
                                   [b := old(g.cards[b]).(isFlipped := true)]
    ensures g.flippedCards == [old(g.cards[a]), old(g.cards[b])] && g.pendingAt == [a, b]
    ensures g.moves == old(g.moves) + 1
    ensures g.score == old(g.score) + if Game.IsMatch(old(g.cards[a]), old(g.cards[b])) then 100 else 0
  {
    assert !g.ClickIgnored(a);
    g.Click(a);
    assert !g.ClickIgnored(b);
    g.Click(b);
  }

  /** Clicking the two Red cards: one move, 100 points, both stay face up as matched. */
  method MatchingFirstPair() returns (score: nat, moves: nat, matched0: bool, matched1: bool, over: bool)
    ensures score == 100 && moves == 1
    ensures matched0 && matched1 && !over
  {
    EasyDeckInOrder();
    var g := new Game.Game(null, EasyIds, IdentitySwaps);
    ghost var deck := g.cards;
    TurnOverPair(g, 0, 1);
    assert g.cards[2] == deck[2];
    g.Resolve();
    assert !g.cards[2].isMatched;
    score, moves := g.score, g.moves;
    matched0, matched1, over := g.cards[0].isMatched, g.cards[1].isMatched, g.isGameOver;
  }

  /** Clicking Red then Blue: one move, no points, both cards turned back. */
  method MismatchedFirstPair() returns (score: nat, moves: nat, up0: bool, up2: bool, locked: bool)
    ensures score == 0 && moves == 1
    ensures !up0 && !up2 && !locked
  {
    EasyDeckInOrder();
    var g := new Game.Game(null, EasyIds, IdentitySwaps);
    TurnOverPair(g, 0, 2);
    g.Resolve();
    score, moves := g.score, g.moves;
    up0, up2, locked := g.cards[0].isFlipped, g.cards[2].isFlipped, g.isLocked;
  }
}
