# Portfolio components, modelled in Dafny

This project models the five stateful widgets of the LogicByteX portfolio site:

- **Snake.** A 20x20 grid game. It has a head-first snake, one food cell and a direction. A score of 10 points per food is kept, with a high score persisted under `snakeHighScore`.
- **Memory Match.** Sixteen cards, two for each of eight symbols, dealt by a Fisher-Yates shuffle. A click turns a card up. When two are up, a timeout either marks them matched or turns them back. The game is won at eight matches, and the best time is kept.
- **Terminal.** A command interpreter over a history of entries. It holds a table of commands; fourteen secret ones stay locked until the easter egg is found. It also has a Konami-code detector listening to every key press.
- **Easter egg.** A button that unlocks the secrets after seven clicks, once and for all. It shows a hint on the first click and a countdown badge in between.
- **Mouse trail.** A buffer of the last eight cursor positions, pruned of points older than half a second.

Each component becomes one module.

- A value `State` and pure transition functions over it are the specification. They are: `Snake.Reset`, `Snake.OnKey`, `Snake.Tick`; `Memory.Init`, `Memory.Click`, `Memory.Resolve`, `Memory.TimerTick`; `Shell.Handle`, `Shell.Submit`, `Shell.KeyDown`; `Egg.Click`.
- Lemmas state what the component promises about those functions.
- A class holds the same fields the component keeps in React state. Its methods update those fields as the handlers do. Each method is proved to leave the state the specification function gives, and to keep the invariant.
- Two modules carry the JavaScript built-ins the terminal and the clock rely on:
  - `JsText`: `trim`, `toLowerCase`, `split`, `join` and `parseInt`;
  - `Decimal`: decimal `toString` and `padStart`.
- `Resume` and `TerminalText` hold the fixed texts the commands print.

How the environment enters the model:

- Randomness is an argument. Snake gets the stream of random cells to draw food from. Memory gets the index each shuffle step swaps with (`picks[i] <= i`). The terminal's joke, quote, coin, die and 8-ball get a natural number `rand`.
- Each `setTimeout` and `setInterval` firing is an operation of its own:
  - `MoveSnake`, the game-loop interval;
  - `FireTimeout` and `TickTimer`, Memory's pair timeout and clock;
  - `FireHintTimeout` and `FireResetTimeout`, the easter egg's two timeouts;
  - `CleanupTick`, the trail's cleanup interval.
- Local storage is a field: Snake's `stored`, and Memory's `bestTime`, which is always written together with it.
- The clock is a parameter: the trail's `now`.

Three behaviours of the code that are easy to misread:

- **Snake direction.** A direction key writes the direction field at once. The reversal guard compares against that latest value; it is not an intent buffered until the next tick. So two quick turns between ticks can reverse the snake into its own neck. `Snake.QuickTurnScenario` shows this.
- **Konami detector.** On a mismatch the detector goes back to position 0 without testing the key against the first key of the code. So an extra `ArrowUp` before the code hides it. `Shell.StrayArrowUpHidesCode` shows this.
- **Snake self-collision.** This is checked against every segment before the tick, the tail included, although the tail would move away. `Snake.TailScenario` shows this.

## Model

| member | source | states |
|---|---|---|
| Snake.Opposite | src/components/SnakeGame.tsx:83-98 | no direction is its own opposite |
| Snake.Advance | src/components/SnakeGame.tsx:113-129 | one step always moves the head to a different cell |
| Snake.AdvanceUndone | src/components/SnakeGame.tsx:113-129 | opposite of opposite is the direction itself, and a step in the opposite direction undoes a step |
| Snake.FirstFree | src/components/SnakeGame.tsx:30-39 | the food drawn is a grid cell from the random stream that the snake does not occupy |
| Snake.FirstFreeIsFirstAccepted | src/components/SnakeGame.tsx:30-39 | when every draw before position k is on the snake and draw k is not, the food is draw k: rejection sampling |
| Snake.GenerateFood | src/components/SnakeGame.tsx:30-39 | the do-while loop ends, given one free draw, with an in-grid cell off the snake, namely the first free draw |
| Snake.Initial | src/components/SnakeGame.tsx:13-23 | on mount the high score is the stored one, or 0 when nothing is stored; not started, score 0, invariant holds |
| Snake.Reset | src/components/SnakeGame.tsx:42-51 | snake is the single cell (10,10), food in the grid and off it, direction right, score 0, not over, not paused, started; high score and storage kept |
| Snake.ResetForgetsRound | src/components/SnakeGame.tsx:42-51 | two states with the same high score and storage reset to the same state: only the high score survives a reset |
| Snake.ResetKeepsInv | src/components/SnakeGame.tsx:42-51 | a reset keeps the snake in the grid and self-avoiding, food off it, score a multiple of 10 and at most the stored high score |
| Snake.OnKeyRules | src/components/SnakeGame.tsx:55-101 | each rule in order: Escape changes nothing; Space/Enter resets when not started or over; Space toggles pause while running; turns are ignored when paused or not started, or when opposite; else the direction is set; other keys are ignored |
| Snake.OnKeyNeverReverses | src/components/SnakeGame.tsx:79-100 | apart from a reset, no key leaves the direction opposite to the one before it |
| Snake.OnKeyKeepsInv | src/components/SnakeGame.tsx:55-101 | every key press keeps the invariant |
| Snake.Tick | src/components/SnakeGame.tsx:108-162 | the snake is never empty and the high score never decreases |
| Snake.TickIdle | src/components/SnakeGame.tsx:109 | a tick changes nothing unless the game is started, not over and not paused |
| Snake.TickCollision | src/components/SnakeGame.tsx:131-141 | a head off the grid or on any pre-tick segment sets game over and leaves the snake and everything else unchanged |
| Snake.TickEats | src/components/SnakeGame.tsx:143-155 | eating prepends the head (length plus one), adds 10 points, puts new food off the new snake, raises the high score to the new score when exceeded, and writes storage only then |
| Snake.TickMoves | src/components/SnakeGame.tsx:143-160 | moving without eating: new head first, every old segment shifted by one, the last dropped; length, score, food and high score kept |
| Snake.TickLength | src/components/SnakeGame.tsx:143-160 | length changes by 0 or 1, and grows exactly when the snake eats |
| Snake.TickKeepsInv | src/components/SnakeGame.tsx:111-162 | every tick keeps the segments in the grid and pairwise distinct, the food off the snake, and the score within the high score |
| Snake.WallScenario | src/components/SnakeGame.tsx:131-135 | head at (19,10) moving right: game over, snake unchanged |
| Snake.TailScenario | src/components/SnakeGame.tsx:137-141 | a head moving onto the tail cell collides, though the tail would have moved away |
| Snake.QuickTurnScenario | src/components/SnakeGame.tsx:83-98 | up then left between two ticks turns a right-moving snake back on its neck, and the next tick ends the game |
| Snake.SnakeGame.constructor | src/components/SnakeGame.tsx:13-23 | the fields start as the initial state read from storage |
| Snake.SnakeGame.ResetGame | src/components/SnakeGame.tsx:42-51 | the fields become the reset state, invariant kept |
| Snake.SnakeGame.HandleKeyPress | src/components/SnakeGame.tsx:55-101 | the fields become the key handler's result; it asks to close exactly on Escape |
| Snake.SnakeGame.MoveSnake | src/components/SnakeGame.tsx:111-162 | the fields become the tick's result, invariant kept |
| Snake.SnakeGame.MoveHead | src/components/SnakeGame.tsx:143-160 | once the new head is free, eating or moving on leaves the tick's result |
| Memory.SymbolsDistinct | src/components/MemoryGame.tsx:12 | eight symbols, pairwise different |
| Memory.Deck | src/components/MemoryGame.tsx:27-33 | the deck built has 16 cards |
| Memory.DeckIdCount | src/components/MemoryGame.tsx:27-33 | every id from 0 to 15 occurs exactly once in the deck built |
| Memory.DeckSymbolCount | src/components/MemoryGame.tsx:27-33 | every symbol occurs exactly twice in the deck built |
| Memory.ShuffledDeck | src/components/MemoryGame.tsx:26-39 | any permutation of the deck has 16 cards, each id 0..15 once and so distinct, each symbol twice, all face down and unmatched |
| Memory.CountPermutation | src/components/MemoryGame.tsx:36-39 | reordering the cards keeps the number satisfying any property |
| Memory.SwapPermutes | src/components/MemoryGame.tsx:38 | a swap exchanges exactly the two positions and keeps the multiset of cards |
| Memory.FisherYates | src/components/MemoryGame.tsx:36-39 | the shuffle keeps the length |
| Memory.FisherYatesPermutes | src/components/MemoryGame.tsx:36-39 | swapping position i with some j <= i from the top down deals a permutation of the deck |
| Memory.FisherYatesStep | src/components/MemoryGame.tsx:36-39 | one in-place swap leaves the rest of the shuffle to do |
| Memory.Shuffle | src/components/MemoryGame.tsx:27-39 | the push loop and the descending in-place swap loop deal exactly the specified shuffle of the built deck |
| Memory.Initial | src/components/MemoryGame.tsx:13-23 | on mount the best time is the saved one (none is Infinity), no game started, invariant holds |
| Memory.InitDeals | src/components/MemoryGame.tsx:26-47 | a new game: a permutation of the deck, ids 0..15 once each, symbols twice, all face down; counters and time at 0, flipped empty, started, not won, best time kept |
| Memory.InitKeepsInv | src/components/MemoryGame.tsx:26-47 | a new deal satisfies the invariant |
| Memory.OnKeyKeepsInv | src/components/MemoryGame.tsx:115-128 | the keyboard start rule keeps the invariant |
| Memory.FindCard | src/components/MemoryGame.tsx:65 | no card is found exactly when no card has the id; otherwise the first card with that id |
| Memory.FindCardAt | src/components/MemoryGame.tsx:65 | with distinct ids, looking up a card's id finds that card |
| Memory.Judge | src/components/MemoryGame.tsx:79-83 | the scheduled timeout is for the two flipped ids, in order (which kind it is, is stated by Memory.ClickFlipsOne) |
| Memory.ClickIgnoredIsNoOp | src/components/MemoryGame.tsx:63-66 | a click with no game, a won game, an unknown id, a card up or matched, or two cards up changes nothing |
| Memory.ClickFlipsOne | src/components/MemoryGame.tsx:68-83 | any other click turns up exactly that card, appends its id, counts a move exactly when two are up, then schedules the pair's timeout, a match exactly when both ids name cards showing the same symbol, a mismatch otherwise; matches, time, won and best time kept |
| Memory.FindCardFlipUp | src/components/MemoryGame.tsx:68-82 | turning a card up changes no lookup: the same ids are found, with the same symbols |
| Memory.FlipUpKeeps | src/components/MemoryGame.tsx:68-71 | turning a card up keeps the ids, the matched count and every face-up card |
| Memory.ClickKeepsInv | src/components/MemoryGame.tsx:62-112 | after any click at most two distinct face-up unmatched cards are listed, a timeout is pending exactly when two are, and matches count the matched pairs |
| Memory.ResolveMatch | src/components/MemoryGame.tsx:85-101 | a match marks exactly the two cards matched, empties flipped, adds one match; won exactly at 8, and the captured time becomes the best time only if strictly smaller; moves and time kept |
| Memory.ResolveMismatch | src/components/MemoryGame.tsx:103-109 | a mismatch turns exactly the two cards face down and empties flipped; nothing else changes |
| Memory.MarkMatchedCount | src/components/MemoryGame.tsx:86-88 | marking two face-up unmatched cards raises the matched count by exactly 2 |
| Memory.ResolveKeepsInv | src/components/MemoryGame.tsx:85-109 | either timeout keeps the invariant |
| Memory.WonMeansAllPairs | src/components/MemoryGame.tsx:90-92 | a won game has 8 matches and all 16 cards matched |
| Memory.TimerTick | src/components/MemoryGame.tsx:51-59 | the clock counts one second only while a game runs and is not won; nothing else changes |
| Memory.TimerKeepsInv | src/components/MemoryGame.tsx:51-59 | a clock tick keeps the invariant |
| Memory.SecondsField | src/components/MemoryGame.tsx:133 | seconds below 60, padded, are exactly two digits that read back as the seconds |
| Memory.FormatTimeRoundTrip | src/components/MemoryGame.tsx:130-134 | `m:ss` has two seconds digits worth less than 60 and minutes before the colon, and reads back as the time: mins*60 + secs == s |
| Memory.ClockOf | src/components/MemoryGame.tsx:130-134 | m minutes and r < 60 seconds written as a clock read back as m, r and 60m + r |
| Memory.MemoryGame.constructor | src/components/MemoryGame.tsx:13-23 | the fields start as the initial state with the saved best time |
| Memory.MemoryGame.InitGame | src/components/MemoryGame.tsx:26-48 | the fields become a fresh deal, invariant kept |
| Memory.MemoryGame.HandleCardClick | src/components/MemoryGame.tsx:62-112 | the fields become the click's result, invariant kept |
| Memory.MemoryGame.FireTimeout | src/components/MemoryGame.tsx:85-109 | the fields become the pending timeout's resolution, invariant kept |
| Memory.MemoryGame.TickTimer | src/components/MemoryGame.tsx:51-59 | the fields become the clock tick's result |
| Memory.MemoryGame.HandleKeyPress | src/components/MemoryGame.tsx:115-128 | Space or Enter deals a new game when none runs or the last is won; it asks to close exactly on Escape |
| Shell.JokeAt | src/components/Terminal.tsx:111-121 | the joke shown is one of the jokes |
| Shell.QuoteAt | src/components/Terminal.tsx:122-132 | the quote shown is one of the quotes |
| Shell.AnswerAt | src/components/Terminal.tsx:170-178 | the 8-ball's answer is one of its answers |
| Shell.Lookup | src/components/Terminal.tsx:196 | an entry found has the command word as its key |
| Shell.LookupName | src/components/Terminal.tsx:31-192 | every entry of the table is found under its own key |
| Shell.LookupNone | src/components/Terminal.tsx:196 | a command word is unknown exactly when no entry has it as key |
| Shell.MorseOf | src/components/Terminal.tsx:143 | a character's code, or the character itself, is never empty and holds no space |
| Shell.MorseDecodeCode | src/components/Terminal.tsx:136-142 | the table is injective: every code read back is its character |
| Shell.MorsePieces | src/components/Terminal.tsx:143 | splitting the encoding at spaces gives one code per character, in order |
| Shell.MorseRoundTrip | src/components/Terminal.tsx:136-143 | text of letters and spaces is recovered from its morse code |
| Shell.TimerSeconds | src/components/Terminal.tsx:189 | the seconds are the parsed number unless it is NaN, 0 or -0, in which case 10; never 0 |
| Shell.TimerOfCount | src/components/Terminal.tsx:189 | a positive count of seconds is taken as written |
| Shell.TimerDefault | src/components/Terminal.tsx:189 | no argument, or 0, gives 10 seconds |
| Shell.Initial | src/components/Terminal.tsx:13-27 | locked, two history entries, invariant holds |
| Shell.DiceFace | src/components/Terminal.tsx:165-169 | the die shows a single digit from 1 to 6 |
| Shell.Execute | src/components/Terminal.tsx:31-192 | no command touches the input box or the detector, and only clear touches the history |
| Shell.ParseAtFirstSpace | src/components/Terminal.tsx:195-199 | the command word is the trimmed lower-cased line up to its first space, the arguments everything after it; the word has no space |
| Shell.Settle | src/components/Terminal.tsx:230-255 | a change of the unlock flag re-registers the key listener and so restarts the detector; nothing else changes |
| Shell.UnknownCommand | src/components/Terminal.tsx:203-208 | an unknown command appends exactly one entry, the line as typed with the not-found message, and changes nothing else |
| Shell.KnownCommand | src/components/Terminal.tsx:198-202 | a known command other than clear appends exactly one entry: the line as typed with the command's answer |
| Shell.ClearCommand | src/components/Terminal.tsx:46-49 | clear empties the history, records nothing, and ignores arguments |
| Shell.LockedCommand | src/components/Terminal.tsx:61-64 | while locked, a secret command or secrets answers its lock message and changes nothing |
| Shell.KonamiCommand | src/components/Terminal.tsx:57-60 | konami unlocks from any state, records its entry, and restarts the detector when it was locked |
| Shell.KonamiWord | src/components/Terminal.tsx:245 | the line the detector runs parses as konami with no arguments |
| Shell.PlainWord | src/components/Terminal.tsx:195 | a lower-case word parses as itself with no arguments |
| Shell.MatrixToggles | src/components/Terminal.tsx:53-56 | matrix flips the mode, its answer describes the mode before the flip, and twice is no change |
| Shell.MorseCommand | src/components/Terminal.tsx:133-145 | with no text the usage line, otherwise the code of the lower-cased text, one piece per character |
| Shell.ExecuteKeepsInv | src/components/Terminal.tsx:101-110 | a game opens only once unlocked, and no command locks again |
| Shell.HandleKeepsInv | src/components/Terminal.tsx:194-209 | every command line keeps the invariant and never locks again |
| Shell.SubmitRules | src/components/Terminal.tsx:211-217 | a blank line changes nothing; any other runs as a command and empties the box |
| Shell.Detect | src/components/Terminal.tsx:242-250 | the detector's index stays inside the code |
| Shell.KeyDownKeepsInv | src/components/Terminal.tsx:234-251 | key presses keep the invariant and the unlock, and Ctrl/Meta+K changes nothing |
| Shell.KeyDownFires | src/components/Terminal.tsx:244-247 | the key completing the code unlocks, records a konami entry and restarts the detector |
| Shell.EasterEggEventRules | src/components/Terminal.tsx:258-266 | the egg's event unlocks, records one konami entry, and restarts the detector when it was locked |
| Shell.Run | src/components/Terminal.tsx:242-250 | after any key sequence the index is inside the code |
| Shell.RunSound | src/components/Terminal.tsx:242-250 | the index is always the length of a code prefix the keys end with, up to case; firing means the keys end with the whole code |
| Shell.RunFires | src/components/Terminal.tsx:242-250 | from index 0 the code's keys advance the index one by one and fire on the last |
| Shell.RunCodePrefix | src/components/Terminal.tsx:242-250 | from index 0 the first k keys of the code leave the index at k without firing |
| Shell.DetectHit | src/components/Terminal.tsx:242-243 | the expected key advances the index by one |
| Shell.DetectMiss | src/components/Terminal.tsx:242-249 | any key that differs from the expected one, ignoring case, puts the index back to 0 |
| Shell.StrayRun | src/components/Terminal.tsx:248-249 | an extra ArrowUp before the code: after the third key the index is 0 and stays there |
| Shell.StrayArrowUpHidesCode | src/components/Terminal.tsx:242-250 | that sequence never fires: a mismatch is not compared again with the first key |
| Shell.Terminal.constructor | src/components/Terminal.tsx:13-27 | the fields start as the initial state |
| Shell.Terminal.SetInput | src/components/Terminal.tsx:322 | typing replaces the input box only |
| Shell.Terminal.HandleCommand | src/components/Terminal.tsx:194-209 | the fields become the command's result with the listener settled, invariant kept |
| Shell.Terminal.HandleSubmit | src/components/Terminal.tsx:211-217 | the fields become the submit rule's result |
| Shell.Terminal.HandleKeyDown | src/components/Terminal.tsx:234-251 | the fields become the key handler's result; it asks for focus exactly on Ctrl/Meta+K |
| Shell.Terminal.OnEasterEgg | src/components/Terminal.tsx:258-266 | the fields become the egg event's result |
| Shell.Terminal.CloseSnakeGame | src/components/Terminal.tsx:335 | closing Snake hides it and changes nothing else |
| Shell.Terminal.CloseMemoryGame | src/components/Terminal.tsx:336 | closing Memory hides it and changes nothing else |
| JsText.TrimShape | src/components/Terminal.tsx:195 | the trim of a text is a middle slice with only whitespace around it, starting and ending with non-whitespace |
| JsText.TrimEmpty | src/components/Terminal.tsx:213 | the trim is empty exactly when the text is all whitespace |
| JsText.TrimIdempotent | src/components/Terminal.tsx:195 | trimming twice trims nothing more |
| JsText.Lower | src/components/Terminal.tsx:195 | lower-casing keeps the length and maps each character |
| JsText.LowerFacts | src/components/Terminal.tsx:195 | lower-casing is idempotent, changes exactly the upper-case letters and leaves none |
| JsText.IndexOf | src/components/Terminal.tsx:195 | the first separator position, with none before it |
| JsText.Split | src/components/Terminal.tsx:195 | splitting gives at least one piece, none holding the separator |
| JsText.JoinSplit | src/components/Terminal.tsx:195-199 | joining the pieces of a split with the separator gives the text back |
| JsText.SplitJoin | src/components/Terminal.tsx:143 | splitting a join of separator-free pieces gives the pieces back |
| JsText.SplitAtFirst | src/components/Terminal.tsx:195-199 | the first piece is the text before the first separator, and the rest rejoined is the text after it |
| JsText.DigitRun | src/components/Terminal.tsx:189 | the longest prefix of digits of the radix |
| JsText.ParseIntOfNat | src/components/Terminal.tsx:189 | parseInt reads a number's decimal text back, after whitespace and before a non-digit |
| JsText.ParseIntNaN | src/components/Terminal.tsx:189 | empty or whitespace text, or a bare sign, parses as NaN |
| Decimal.NatToString | src/components/MemoryGame.tsx:131-133 | decimal text: digits only, no leading zero, one digit exactly below 10 |
| Decimal.ParseNatToString | src/components/MemoryGame.tsx:131-133 | decimal text reads back as the number |
| Decimal.IntToString | src/components/Terminal.tsx:190 | a negative number is written with a minus sign before its magnitude |
| Decimal.PadStart2 | src/components/MemoryGame.tsx:133 | padding puts zeros before the text up to two characters |
| Egg.Initial | src/components/EasterEgg.tsx:10-13 | no clicks, not unlocked, invariant holds |
| Egg.ClickAfterUnlock | src/components/EasterEgg.tsx:16 | once unlocked, a click changes nothing and does not call onActivate |
| Egg.ClickCounts | src/components/EasterEgg.tsx:18-29 | before unlocking a click counts one, shows the hint exactly on the first, and unlocks and calls onActivate exactly on the seventh |
| Egg.ResetKeepsUnlock | src/components/EasterEgg.tsx:30-33 | the activation timeout clears the count and the animation, keeps the unlock, and hides the badge |
| Egg.BadgeRange | src/components/EasterEgg.tsx:97-104 | the badge shows exactly while 0 < clicks and not unlocked, and shows 7 - clicks, from 1 to 6 |
| Egg.BadgeCountsDown | src/components/EasterEgg.tsx:97-104 | each click before the last takes one off the badge; the last hides it |
| Egg.StepKeepsInv | src/components/EasterEgg.tsx:15-35 | clicks and timeouts keep the invariant and the unlock, and onActivate is only called by the unlocking click |
| Egg.ActivatesAtMostOnce | src/components/EasterEgg.tsx:16-29 | over any run of events onActivate is called at most once, never after unlocking, and only with the egg unlocked afterwards |
| Egg.RemainingClicksUnlock | src/components/EasterEgg.tsx:18-29 | from any count the clicks still needed unlock the egg with exactly one onActivate |
| Egg.SevenClicksUnlock | src/components/EasterEgg.tsx:18-29 | seven clicks from the start unlock the egg with exactly one onActivate |
| Egg.EasterEgg.constructor | src/components/EasterEgg.tsx:10-13 | the fields start as the initial state |
| Egg.EasterEgg.HandleClick | src/components/EasterEgg.tsx:15-35 | the fields and the onActivate call are the click's result, invariant kept |
| Egg.EasterEgg.FireHintTimeout | src/components/EasterEgg.tsx:23 | the hint timeout hides the hint |
| Egg.EasterEgg.FireResetTimeout | src/components/EasterEgg.tsx:30-33 | the activation timeout clears the count and the animation |
| Egg.EasterEgg.BadgeShown | src/components/EasterEgg.tsx:97-104 | the badge as rendered, a number from 1 to 6 when shown |
| Trail.AddPointShape | src/components/MouseTrail.tsx:38-49 | after a move the buffer holds 1 to 8 points, the last the new one, before it the newest old points |
| Trail.AddPointCapacity | src/components/MouseTrail.tsx:40-48 | below capacity a plain append; at capacity the oldest is dropped and the order kept |
| Trail.Prune | src/components/MouseTrail.tsx:55 | the cleanup keeps only points younger than 500 ms, never more than before |
| Trail.PruneKeepsLive | src/components/MouseTrail.tsx:53-56 | the cleanup keeps exactly the live points, each as many times as it occurs, in their order, and nothing else |
| Trail.SubsequenceKeepsOrder | src/components/MouseTrail.tsx:53-56 | dropping points keeps ids increasing and below the counter |
| Trail.MouseTrail.constructor | src/components/MouseTrail.tsx:14-23 | an empty buffer, the glow at (0,0), the counter at 0 |
| Trail.MouseTrail.HandleMouseMove | src/components/MouseTrail.tsx:28-50 | the new point takes the counter's id, the counter goes up by one, the buffer is the add's result, the glow moves; ids stay increasing |
| Trail.MouseTrail.CleanupTick | src/components/MouseTrail.tsx:53-56 | the buffer becomes the pruned buffer, ids stay increasing, nothing else changes |

## Left out

- Rendering: the canvas and JSX of every component, `motion` props, the trail's opacity and scale. These are floating-point presentation with no state behind them.
- The distribution of `Math.random`. Every random choice is an argument with its range stated. Snake's food draws are required to contain a free cell; otherwise the source's loop does not terminate.
- Scheduling of timers and effects. Each firing is an explicit operation, and the model does not constrain the order of the firings. A stale closure that runs after its effect was torn down is not modelled.
- A saved Snake high score that is not a number (`parseInt` gives NaN) is not modelled; storage holds a natural number or nothing.
- A hand-edited `memoryBestTime` that does not parse is not modelled; the saved best time is a natural number or nothing.
- Lower-casing covers the ASCII letters only; full Unicode case mapping is left out, and a character is a Dafny `char`, not a UTF-16 code unit.
- Morse's `split('')` splits into UTF-16 code units; the model takes one `char` per character.
- Property names inherited from `Object.prototype` (such as `constructor`) also resolve in the `commands` object; the model's table has only its own keys.
- Numbers beyond 2^53 lose precision in JavaScript, and `String` writes numbers of 1e21 and above in exponent notation; the model's integers are exact.
- The `download-resume` command's DOM link and click are I/O; the model keeps only its answer.
- Opening the games from the terminal only sets the show flags; mounting the game components is not modelled.
- Focusing the input box, scrolling the history, and the animations toggle are left out. The animations toggle is only text in the terminal.
- The long fixed answers are named messages (`Message`), and `Render` gives their text; only the texts built from the input (morse, timer, dice, not found) are spelled out.
- The mouse listener is registered again when animations are switched, and the new registration starts `trailId` at 0. The model is one registration. The animations-disabled early return and the body class are left out.
