# ColorSpeak core, modelled in Dafny

ColorSpeak is a children's colour-matching memory game. A palette-preview
page sits beside it. This project models the logic behind both:

- **Deck builder** (`Deck`). Three, six or nine pairs are taken from a fixed
  twelve-colour catalogue depending on the difficulty. Two face-down cards are
  made per colour, each with a fresh id. The list is then shuffled in place by
  a Fisher–Yates loop.
- **Game state machine** (`Game.Game`). A click turns a card up. The second
  pending card locks the board, counts as one move and is checked against the
  first. A match scores 100 points and says the colour's name at once. A
  timer later resolves the pair: a match marks both cards matched and may end
  the game; a mismatch turns both back. Then the board unlocks. The game also
  has a restart from the win dialog, a full reset (score back to 0) and
  difficulty buttons.
- **Speech queue** (`Sound`). A voice is picked in this order: US English,
  then any English, then the first voice. A colour announcement cancels
  everything queued before it. The win announcement is queued behind whatever
  is already queued.
- **Swatch text colour** (`ColorSwatch`). The text on a swatch is black or
  white, chosen by the YIQ brightness of its `#RRGGBB` background.
- **Preview colour lookup** (`PalettePreview`). The three previews (dashboard,
  mobile, landing) map a palette's colour roles onto seven style slots. Their
  `get`/`styles` code is identical, character for character, in all three
  files, so it is modelled once.

Two things the browser supplies become explicit inputs:

- `ids`: the values `crypto.randomUUID()` returns, assumed pairwise distinct.
- `swaps`: the `j` chosen by `Math.random()` at each shuffle step, with `swaps[i] <= i`.

The speech engine becomes a small class, `Sound.SpeechSynthesis`, that holds
the available voices and the queue of utterances. `null` stands for a
platform without `speechSynthesis`, where the calls do nothing.

The React state updates in a click handler are applied in order, as one
step. The `setTimeout` continuation of `checkForMatch` is a separate
operation, `Game.Game.Resolve`. It can only run while the board is locked,
which is the only time such a timer is pending. The class invariant
`Game.Game.Valid` ties the fields together:

- the deck holds two cards of each selected colour and no other card, with unique ids;
- the pending list records the face-up, unmatched cards at the positions they occupy;
- the lock is set exactly when two cards are pending;
- the game is over exactly when every card is matched.

Every state-changing operation preserves this invariant.

`Scenarios` replays two openings on the Easy deck using identity swaps: one
where the first pair matches and one where it does not.

## Model

| member | source | states |
|---|---|---|
| Seqs.FindFirst | components/ui-previews/DashboardPreview.tsx:10 | `Array.find`: Some(k) gives an index whose element satisfies the predicate with none before it. None comes back exactly when no element satisfies it. |
| Deck.Catalogue | App.tsx:10-23 | The fixed, ordered catalogue. Its contract gives the size, twelve colours; the body lists the source's names and hex values in the source's order. |
| Deck.PairCount | App.tsx:25-29 | Easy, Medium and Hard deal 3, 6 and 9 pairs. There is never more than the 12 catalogue colours. |
| Deck.CatalogueDistinct | App.tsx:10-23 | The twelve catalogue colours are pairwise distinct, and so are their names. |
| Deck.Selected | App.tsx:45 | `COLORS.slice(0, numPairs)`: exactly PairCount(d) colours, the k-th being the k-th catalogue colour. |
| Deck.Paired | App.tsx:48-52 | Card k of the pair list carries `ids[k]` and colour k/2, face down and unmatched. |
| Deck.BuildPairs | App.tsx:48-52 | The push loop fills a fresh array with exactly the pair list. |
| Deck.PairedColors | App.tsx:49-52 | The pair list carries each colour twice, in order. Its colour multiset is twice that of the selected colours. |
| Deck.PairedIds | App.tsx:50-51 | The pair list carries the drawn ids in draw order. |
| Deck.Swap | App.tsx:57 | The destructuring swap: the elements at i and j are exchanged and every other element is kept. |
| Deck.ShuffleFrom | App.tsx:55-58 | The loop from step i down to step 1, swapping position i with `swaps[i]` at each step. It keeps the length; ShuffleFromPermutes shows it only reorders. |
| Deck.Shuffled | App.tsx:55-58 | The whole loop, from the last index down to 1. It keeps the length; ShuffledPermutes shows it is a permutation. |
| Deck.Shuffle | App.tsx:55-58 | The in-place loop leaves the array equal to the Fisher–Yates specification applied to the old contents, and a permutation of them. |
| Deck.SwapPermutes | App.tsx:57 | One destructuring swap preserves the multiset. |
| Deck.ShuffleFromPermutes | App.tsx:55-58 | The remaining shuffle steps preserve the multiset. |
| Deck.ShuffledPermutes | App.tsx:55-58 | The whole shuffle is a permutation. |
| Deck.ShuffleFromMaps | App.tsx:55-58 | The shuffle steps commute with a map over the elements. Shuffling the cards moves their colours and ids the same way. |
| Deck.ShuffledMaps | App.tsx:55-58 | The whole shuffle commutes with a map over the elements. |
| Deck.ShuffleFromKeepsDistinct | App.tsx:55-58 | The shuffle steps keep pairwise distinct elements distinct. |
| Deck.ShuffledKeepsDistinct | App.tsx:55-58 | The whole shuffle keeps pairwise distinct elements distinct. |
| Deck.ShuffledPairsHoldPairs | App.tsx:48-58 | A shuffled pair list of distinct colours holds exactly two cards of each and no other. |
| Deck.ShuffledPairsKeepIds | App.tsx:48-58 | A shuffled pair list built from distinct ids has pairwise distinct ids. |
| Deck.NewDeck | App.tsx:43-58 | The deck `initGame` deals: the pair list of the selected colours, shuffled by the swap choices. It has 2·PairCount(d) cards. Deal, InitGame and NewDeckContents are stated against it. |
| Deck.Deal | App.tsx:43-58 | Building then shuffling gives exactly `NewDeck(d, ids, swaps)`. |
| Deck.NewDeckColors | App.tsx:44-58 | A new deck holds two cards of each of the first PairCount(d) catalogue colours and no other card. |
| Deck.NewDeckIds | App.tsx:50-58 | A new deck's ids are pairwise distinct. |
| Deck.NewDeckFaceDown | App.tsx:50-58 | A new deck has 2·PairCount(d) cards, all face down and unmatched. |
| Deck.NewDeckContents | App.tsx:43-58 | Combines the three facts above: size, pairs, distinct ids, face down. |
| Deck.IdentitySwapsKeepOrder | App.tsx:55-58 | When every step picks j == i, the shuffle is the identity. |
| Game.IsMatch | App.tsx:102 | The name test of `checkForMatch`. Two cards of one colour always match; MatchIsSameColour shows that in a deal the converse holds too. |
| Game.FlipUp | App.tsx:82-84 | The click handler's by-id `map`. Ids, colours and matched flags are kept, and a card ends face up exactly when it was face up already or carries the clicked id. |
| Game.MarkMatched | App.tsx:106-110 | The match branch's by-id `map`. Ids and colours are kept. Cards with either id become matched and face up; all others are unchanged. |
| Game.FlipDown | App.tsx:148-152 | The mismatch branch's by-id `map`. Ids and colours are kept. Cards with either id are turned face down, keeping their matched flag; all others are unchanged. |
| Game.AllMatched | App.tsx:117 | The `every(c => c.isMatched)` game-over test. It has no contract of its own; Game.Game.Resolve states that the game is over exactly when it holds. |
| Game.IdsSeparateCards | App.tsx:50-51 | Distinct ids mean no two positions of the deck share an id. |
| Game.FlipUpAt | App.tsx:82-84 | With unique ids, the by-id `map` in the click handler turns up exactly the clicked card. |
| Game.MarkMatchedAt | App.tsx:106-110 | With unique ids, the match `map` marks exactly the two pending cards matched and face up. |
| Game.FlipDownAt | App.tsx:148-152 | With unique ids, the mismatch `map` turns exactly the two pending cards face down. |
| Game.DealtColour | App.tsx:44-52 | Every card of a deal has one of the colours dealt at its difficulty. |
| Game.MatchIsSameColour | App.tsx:102 | In a deal, two cards match by name exactly when they are of one colour, because no two catalogue colours share a name. |
| Game.SameFacesKeepDeal | App.tsx:82-84 | Changing only card flags keeps the deck a deal for its difficulty. |
| Game.NewDeckIsDeal | App.tsx:43-66 | A new deck is a non-empty deal for its difficulty, all cards face down. |
| Game.DealIsConsistent | App.tsx:60-66 | A new deck with nothing pending, unlocked and not over satisfies the game invariant. |
| Game.FlipKeepsConsistent | App.tsx:73-96 | Turning up an unguarded card and appending it to the pending list preserves the invariant. The lock goes on exactly at the second card. |
| Game.MatchKeepsConsistent | App.tsx:104-139 | Marking the pending pair matched and clearing the list preserves the invariant. The game is over iff every card is matched. |
| Game.MismatchKeepsConsistent | App.tsx:143-160 | Turning the pending pair back and clearing the list preserves the invariant. The game is not over. |
| Game.Game.constructor | App.tsx:32-40 | Starts on Easy with score 0 and a fresh deal. Nothing is pending, the board is unlocked and the game is not over. |
| Game.Game.InitGame | App.tsx:43-67 | Deals `NewDeck` for the current difficulty and clears pending cards, moves, lock and game over. The score and difficulty are kept. The invariant holds. |
| Game.Game.ClickIgnored | App.tsx:74-79 | The guard of `handleCardClick`. In a consistent state it always refuses a third card while two are pending, and always refuses a card already face up. |
| Game.Game.Reveal | App.tsx:81-92 | Exactly the clicked card turns up, and it is appended, as it was before the flip, to the pending list. The state is consistent once the lock follows the pending count. |
| Game.Game.Click | App.tsx:73-99 | A guarded click changes nothing. Otherwise: exactly the clicked card turns up, the card before the flip is appended to the pending list, the lock is set iff two are pending, and moves grows by 1 on the second card. The score grows by 100 and the colour is spoken exactly when that second card matches. The invariant is kept. |
| Game.Game.CheckForMatch | App.tsx:101-115 | The synchronous part: score +100 and the colour announcement on a match, nothing on a mismatch. |
| Game.Game.Resolve | App.tsx:117-160 | The timer continuation. On a match both pending cards become matched; on a mismatch both turn back; no other card changes. The pending list is cleared and the lock released. Moves and score are unchanged. Game over iff every card is matched, and only after a match. The invariant is kept. |
| Game.Game.Restart | App.tsx:261 | The win dialog's restart deals anew for the same difficulty, keeping the score. |
| Game.Game.FullReset | App.tsx:190-193 | The reset button sets the score to 0 and deals anew. |
| Game.Game.SelectDifficulty | App.tsx:69-71 | A new difficulty deals a deck for it, keeping the score. The current difficulty changes nothing, because the effect does not re-run. |
| Sound.EnglishVoice | utils/sound.ts:54-60 | Returns the first en-US voice if there is one. Otherwise the first voice whose language starts with "en". Otherwise the first voice. None only if there are no voices. The voice returned is always one of the inputs. |
| Sound.IsUsEnglish | utils/sound.ts:57 | The first-tier test (`lang === 'en-US'`). Every voice that passes it also passes the second-tier test, so the second search can only fail when the first did. |
| Sound.IsEnglish | utils/sound.ts:58 | The second-tier test (`lang.startsWith('en')`). It has no contract of its own; Sound.EnglishVoice is stated in terms of it. |
| Sound.ColorAnnouncement | utils/sound.ts:66-72 | The utterance "It's <name> color" at rate, pitch and volume 1. It carries a voice exactly when one is installed, and that voice is one of them. |
| Sound.WinAnnouncement | utils/sound.ts:82-88 | The utterance "You Won! Great Job, Super Star!": slower than normal (0.9), higher (1.1), full volume. It carries a voice exactly when one is installed, and that voice is one of them. |
| Sound.SpeechSynthesis.constructor | utils/sound.ts:55 | A synthesiser with the given voices and an empty queue. |
| Sound.SpeechSynthesis.Cancel | utils/sound.ts:64 | `cancel()` empties the queue. |
| Sound.SpeechSynthesis.Speak | utils/sound.ts:74 | `speak(u)` appends u to the queue. |
| Sound.SpeakColor | utils/sound.ts:62-76 | The queue becomes exactly the one announcement "It's <name> color" at rate, pitch and volume 1. It uses the chosen English voice. Nothing happens without a synthesiser. |
| Sound.SpeakWin | utils/sound.ts:78-92 | Appends "You Won! Great Job, Super Star!" (rate 0.9, pitch 1.1) behind whatever is queued, without cancelling. |
| Sound.AnnounceFinalMatch | utils/sound.ts:62-92 | Announcing the final colour and then the win leaves the queue as [colour announcement, win announcement]. |
| ColorSwatch.HexDigitValue | components/ColorSwatch.tsx:20-22 | A hex digit's value is below 16. |
| ColorSwatch.ParseHexPair | components/ColorSwatch.tsx:20-22 | `parseInt` of two hex digits is at most 255. |
| ColorSwatch.Channel | components/ColorSwatch.tsx:20-22 | Each of the three channels read with `substr(1|3|5, 2)` is at most 255. |
| ColorSwatch.Yiq | components/ColorSwatch.tsx:23 | The real-valued brightness. It is never negative, and it is at least 128 exactly when 299·R + 587·G + 114·B ≥ 128000. |
| ColorSwatch.ContrastColor | components/ColorSwatch.tsx:19-25 | The result is "#000000" or "#ffffff". It is black exactly when 299·R + 587·G + 114·B ≥ 128000, which is the same as the real-valued YIQ ≥ 128. |
| ColorSwatch.YiqRange | components/ColorSwatch.tsx:23 | YIQ of bytes lies in [0, 255], and is 255 for white. |
| ColorSwatch.WhiteAndBlackExtremes | components/ColorSwatch.tsx:19-25 | White gets black text, and black gets white text. |
| ColorSwatch.ContrastMonotone | components/ColorSwatch.tsx:23-24 | Raising any channel never turns black text into white text. |
| ColorSwatch.LowerDigitValue | components/ColorSwatch.tsx:20-22 | Lower-casing a hex digit keeps its value. |
| ColorSwatch.ContrastIgnoresCase | components/ColorSwatch.tsx:19-25 | Upper- and lower-case spellings of a colour get the same text colour. |
| ColorSwatch.HexPair | components/ColorSwatch.tsx:20-22 | A byte is written as two hex digits. |
| ColorSwatch.DigitChar | components/ColorSwatch.tsx:20-22 | A digit value below 16 is written as a hex digit of that value. |
| ColorSwatch.ParseHexPairRoundTrip | components/ColorSwatch.tsx:20-22 | The pair parser inverts the two-digit writer for every byte. |
| PalettePreview.Get | components/ui-previews/DashboardPreview.tsx:10 | Never empty. "#000" when no entry has the role. Otherwise the first such entry's hex, or "#000" when that hex is empty. |
| PalettePreview.EmptyHexShadowsLaterEntry | components/ui-previews/LandingPreview.tsx:9 | An empty hex on the first matching entry gives "#000" even when a later entry with that role has a colour, because `find` stops at the first match. |
| PalettePreview.SlotRole | components/ui-previews/DashboardPreview.tsx:12-20 | The role each style slot is read from (bg from Background, surface from Surface, and so on). It has no contract of its own; SlotRoleIsBijective shows the mapping is one to one. |
| PalettePreview.StylesOf | components/ui-previews/DashboardPreview.tsx:12-20 | The seven-slot `styles` object. It has no contract of its own; StylesAt states each slot. |
| PalettePreview.SlotRoleIsBijective | components/ui-previews/MobilePreview.tsx:11-19 | The seven style slots and the seven colour roles correspond one to one. |
| PalettePreview.StylesAt | components/ui-previews/DashboardPreview.tsx:12-20 | Each slot of `styles` is `get` of its role, and never empty. |
| Scenarios.EasyDeckUnshuffled | App.tsx:55-58 | With identity swaps the Easy deck is the unshuffled pair list. |
| Scenarios.EasyDeckInOrder | App.tsx:44-52 | On that deck, cards 0 and 1 share a colour, card 2 has another, and all start face down. |
| Scenarios.TurnOverPair | App.tsx:73-115 | Two clicks on two different face-down cards of an idle game make one move. Both cards turn up and the board locks. The score grows by 100 exactly when they match. |
| Scenarios.MatchingFirstPair | App.tsx:73-139 | Opening with the two Red cards: score 100, one move, both matched, game not over. |
| Scenarios.MismatchedFirstPair | App.tsx:73-160 | Opening with Red then Blue: score 0, one move, both face down again, board unlocked. |

## Left out

- Timers: `setTimeout` delays (500 ms / 1000 ms / 100 ms) are not modelled. A resolution is `Game.Game.Resolve`, called while the board is locked.
- Game.Game.FullReset: requires an unlocked board. In the source, a reset during the 500 ms / 1000 ms resolution window lets the old timer write the old deck back. The model does not represent that race.
- Game.Game.SelectDifficulty: requires an unlocked board, for the same stale-timer reason as a full reset.
- Game.Game.Restart: requires the game to be over, which is when the win dialog offers it.
- Game.Game.Click: takes the deck position of the clicked card instead of the card object. The stale-closure behaviour of React state (a handler seeing an old `gameState`) is not modelled. Successive updates are applied in order.
- The empty deck rendered before the mount effect first runs `initGame` is not modelled. The constructor deals at once.
- `cards.push` on a growing list: modelled as filling a fixed-size array of the final length.
- `crypto.randomUUID()`: an input sequence of ids, assumed pairwise distinct.
- `Math.random()`: an input sequence of swap indices with `swaps[i] <= i`.
- `triggerConfetti`, `playFailSound` and `playMatchSound`: animation and Web Audio output only, left out. `playMatchSound` is never called.
- The speech engine's playback, timing and voice-list loading: the queue is modelled as a list that `speak` appends to and `cancel` empties.
- WinModal's call to `speakWin` after 100 ms: only `Sound.AnnounceFinalMatch` shows the resulting queue order.
- ColorSwatch.ContrastColor: defined only for well-formed `#RRGGBB` strings. `parseInt` on malformed or short input (NaN, lenient prefixes, `#RGB`) is not modelled.
- ColorSwatch clipboard copy and the `copied` flag: browser I/O, left out.
- The JSX markup of the previews, GameCard, WinModal, PreviewSection and Icons: rendering only.
- `services/geminiService.ts` is not part of this model. It is a network call that produces palettes.
- Palette `createdAt` and the palette and colour `name`/`description` text are carried but never inspected.
