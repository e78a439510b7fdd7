# CalmStudy game and screen logic in Dafny

CalmStudy is an Android app for students. It has relaxation media, a
sleep timer, a mood survey, motivational quotes and a few mini-games.
Most of its code is layout. This project models the parts that hold
state and rules, one Dafny module per source file:

- `Snake` (`snake.dfy`) models the snake game of `ui/games/SnakeGame.kt`:
  - a value-typed state on a 20 x 20 board whose edges wrap around;
  - the pure `update` step, with food placement off the snake;
  - the direction-button rule;
  - the screen's `gameState`/`isGameActive` pair as a class.
- `Memory` (`memory_game.dfy`) models the `MemoryGame` engine of
  `ui/games/MemoryGame.kt`. It is a class owning `MemoryCard` objects
  whose flags it sets in place, with a selection of at most two cards, a
  score and a move count.
- `MiniGames` (`mini_games.dfy`) models two games of
  `ui/screens/MiniGamesScreen.kt`:
  - tic-tac-toe, where `checkWinner` is proved against a declarative
    win predicate;
  - the screen's own card game, with its first-card / second-card /
    resolve protocol and its value-typed `MemoryCard`.
- `Survey` (`survey.dfy`) models the seven-question survey of
  `ui/screens/SurveyScreen.kt`: answer selection, the all-answered gate,
  the retake and the recommendation rule.
- `Timer` (`timer.dfy`) models `ui/screens/TimerScreen.kt`:
  - `formatTime`, with a parser that reads its text back;
  - the six durations;
  - the countdown with its start, tick, cancel and finish steps.
- `RelaxMedia` (`relax_media.dfy`) models
  `ui/screens/RelaxMediaScreen.kt`: the favourite sets, the
  favourites-only filter, the empty message, the header and the id of
  the playing audio.
- `PositiveQuotes` (`positive_quotes.dfy`) models the quote carousel of
  `ui/screens/PositiveQuotesScreen.kt`.
- `Common` (`common.dfy`) holds the shared pieces:
  - Kotlin's truncating `/` and `%`;
  - the swap sequence of `java.util.Collections.shuffle`, which Kotlin's
    `shuffle()` and `shuffled()` use;
  - `map`.

## How the model treats the platform

- Randomness is a parameter.
  - A shuffle takes the `nextInt` results that `Collections.shuffle`
    would draw. `ShuffleDraws` states their number and bounds.
  - Food placement takes the sequence of positions the do-while loop
    would draw.
- Coroutines are atomic steps.
  - Each pass of a `LaunchedEffect` loop is one method, such as
    `Snake.SnakeGame.Tick` or `Timer.TimerScreen.Tick`.
  - The delayed resolution of the card game is one method,
    `MiniGames.MemoryGame.Resolve`.
  - `canFlip` blocks clicks in between.
- Platform calls are reduced to what they change in the remembered
  state. An outcome the program cannot predict is a `bool` parameter:
  whether `MediaPlayer.create` succeeded, or whether stopping the player
  threw.
- Compose `remember` state becomes class fields.
  - A handler becomes a method. Its `requires` says when the UI offers
    it, for example a button that is only composed while the results are
    hidden.
  - Values that the source rebuilds with `copy`, `toMutableList` or
    `filter` are Dafny datatypes and sequences.

## Model

| member | source | states |
|---|---|---|
| Common.Quot | app/src/main/java/com/example/calmstudy/ui/screens/TimerScreen.kt:191-192 | Kotlin division truncates: it equals Euclidean division for a non-negative dividend and is never positive for a negative one |
| Common.Rem | app/src/main/java/com/example/calmstudy/ui/games/SnakeGame.kt:222-225 | Kotlin `%`: dividend = quotient * divisor + remainder, with the remainder in [0, b) for a non-negative dividend and in (-b, 0] for a negative one |
| Common.ShuffleFrom | app/src/main/java/com/example/calmstudy/ui/games/MemoryGame.kt:27 | the shuffle's swaps keep the length and the multiset of elements |
| Common.Shuffled | app/src/main/java/com/example/calmstudy/ui/screens/MiniGamesScreen.kt:413 | a shuffle is a permutation: the same length and the same multiset |
| Common.ShuffleFromMap | app/src/main/java/com/example/calmstudy/ui/screens/MiniGamesScreen.kt:412-414 | mapping before or after the remaining swaps gives the same sequence |
| Common.ShuffledMap | app/src/main/java/com/example/calmstudy/ui/screens/MiniGamesScreen.kt:412-414 | `shuffled().map(f)` equals `map(f).shuffled()` with the same random choices |
| Snake.Opposite | app/src/main/java/com/example/calmstudy/ui/games/SnakeGame.kt:168-195 | no direction is its own opposite |
| Snake.NextHead | app/src/main/java/com/example/calmstudy/ui/games/SnakeGame.kt:220-226 | from a cell on the board the new head is on the board and a torus neighbour of the old head |
| Snake.NextHeadReversible | app/src/main/java/com/example/calmstudy/ui/games/SnakeGame.kt:221-226 | a step in the opposite direction undoes the step |
| Snake.Default | app/src/main/java/com/example/calmstudy/ui/games/SnakeGame.kt:209-214 | the default state satisfies the invariant (one segment on the board, food off the snake, score = length - 1) and is not over |
| Snake.FirstFree | app/src/main/java/com/example/calmstudy/ui/games/SnakeGame.kt:254-263 | the chosen food is the first draw not on the snake; there is none exactly when every draw is on the snake |
| Snake.GenerateFood | app/src/main/java/com/example/calmstudy/ui/games/SnakeGame.kt:254-263 | the do-while retry loop returns the first draw that misses the snake |
| Snake.Update | app/src/main/java/com/example/calmstudy/ui/games/SnakeGame.kt:247-251 | `update` never changes the direction |
| Snake.UpdateGameOverAbsorbing | app/src/main/java/com/example/calmstudy/ui/games/SnakeGame.kt:217 | a finished game is returned unchanged |
| Snake.UpdateCollision | app/src/main/java/com/example/calmstudy/ui/games/SnakeGame.kt:229-231 | a new head on any segment, the tail included, ends the game and changes nothing else |
| Snake.UpdateEats | app/src/main/java/com/example/calmstudy/ui/games/SnakeGame.kt:234-250 | eating: the snake becomes the new head followed by the old snake, the score rises by one, and the new food is a draw off the grown snake |
| Snake.UpdateMoves | app/src/main/java/com/example/calmstudy/ui/games/SnakeGame.kt:234-250 | moving: the new head followed by the snake without its last segment, with the same length, food and score |
| Snake.UpdatePreservesWellFormed | app/src/main/java/com/example/calmstudy/ui/games/SnakeGame.kt:216-252 | `update` keeps every segment on the board, the segments distinct, the food off the snake and score = length - 1 |
| Snake.DirectionEnabled | app/src/main/java/com/example/calmstudy/ui/games/SnakeGame.kt:168-195 | a direction button is enabled exactly when the game runs and a step in the current direction followed by one in the button's never brings the head back onto the cell it started from |
| Snake.StepBackOnlyWhenReversed | app/src/main/java/com/example/calmstudy/ui/games/SnakeGame.kt:168-195 | two steps on the torus return to the start cell exactly when the second reverses the first |
| Snake.QuickTurnsCollide | app/src/main/java/com/example/calmstudy/ui/games/SnakeGame.kt:168-195 | the guard reads the current direction, so two enabled clicks within one tick (Up, then Left on a snake moving Right) make the next update run the head into its neck and end the game |
| Snake.ReverseDisabled | app/src/main/java/com/example/calmstudy/ui/games/SnakeGame.kt:168-195 | the button opposite the current direction is disabled |
| Snake.SnakeGame.constructor | app/src/main/java/com/example/calmstudy/ui/games/SnakeGame.kt:28-29 | the screen starts with the default state, stopped |
| Snake.SnakeGame.Start | app/src/main/java/com/example/calmstudy/ui/games/SnakeGame.kt:137-145 | start resets the game and runs the loop when it was stopped, and otherwise changes nothing |
| Snake.SnakeGame.Reset | app/src/main/java/com/example/calmstudy/ui/games/SnakeGame.kt:151-155 | reset restores the default state and stops the loop |
| Snake.SnakeGame.Press | app/src/main/java/com/example/calmstudy/ui/games/SnakeGame.kt:168-195 | an enabled direction button sets the direction only; a disabled one changes nothing |
| Snake.SnakeGame.Tick | app/src/main/java/com/example/calmstudy/ui/games/SnakeGame.kt:38-46 | one loop pass applies `update`, stops the loop exactly when the game is over, and keeps the invariant |
| Memory.MemoryCard.constructor | app/src/main/java/com/example/calmstudy/ui/games/MemoryGame.kt:3-8 | a new card has the given id and symbol and is face down and unmatched |
| Memory.DoubledMultiset | app/src/main/java/com/example/calmstudy/ui/games/MemoryGame.kt:23-26 | adding every symbol twice gives each symbol twice its count |
| Memory.DoubledDistinctTwice | app/src/main/java/com/example/calmstudy/ui/games/MemoryGame.kt:11-26 | with distinct symbols the deck holds each symbol exactly twice and nothing else |
| Memory.EmojisDistinct | app/src/main/java/com/example/calmstudy/ui/games/MemoryGame.kt:11 | the eight symbols are pairwise different |
| Memory.MemoryGame.constructor | app/src/main/java/com/example/calmstudy/ui/games/MemoryGame.kt:17-19 | construction deals a new deck, with an empty selection and score and moves zero |
| Memory.MemoryGame.ResetGame | app/src/main/java/com/example/calmstudy/ui/games/MemoryGame.kt:21-31 | 16 distinct fresh face-down cards; ids and symbols are the shuffle of 0..15 and of each symbol twice; the selection is empty; score and moves are zero |
| Memory.MemoryGame.FillDeck | app/src/main/java/com/example/calmstudy/ui/games/MemoryGame.kt:22-26 | the loop adds two new cards per symbol, card k having id k and the (k/2)-th symbol |
| Memory.MemoryGame.ShuffleCards | app/src/main/java/com/example/calmstudy/ui/games/MemoryGame.kt:27 | the in-place shuffle leaves exactly the shuffled list |
| Memory.MemoryGame.SelectCard | app/src/main/java/com/example/calmstudy/ui/games/MemoryGame.kt:33-44 | a matched or face-up card, or a full selection, is refused with false and no change; otherwise the card is flipped and appended, moves rise exactly when the selection reaches two, and the result is true exactly when the pair has equal symbols |
| Memory.MemoryGame.CheckMatch | app/src/main/java/com/example/calmstudy/ui/games/MemoryGame.kt:46-57 | equal symbols: both cards matched and 10 points; different symbols: nothing changes |
| Memory.MemoryGame.UnflipCards | app/src/main/java/com/example/calmstudy/ui/games/MemoryGame.kt:59-62 | every selected card is turned face down, its matched flag kept, and the selection emptied |
| Memory.MemoryGame.GetCards | app/src/main/java/com/example/calmstudy/ui/games/MemoryGame.kt:64 | the deck handed out always holds 16 different cards with each of the eight symbols on exactly two of them |
| Memory.MemoryGame.GetScore | app/src/main/java/com/example/calmstudy/ui/games/MemoryGame.kt:65 | the score is a multiple of 10 and at most 10 per move |
| Memory.MemoryGame.GetMoves | app/src/main/java/com/example/calmstudy/ui/games/MemoryGame.kt:66 | the move count is non-negative and bounds the score |
| Memory.MemoryGame.IsGameComplete | app/src/main/java/com/example/calmstudy/ui/games/MemoryGame.kt:67 | true exactly when every card of the deck is matched |
| Memory.ShuffledDistinct | app/src/main/java/com/example/calmstudy/ui/games/MemoryGame.kt:27 | shuffling distinct cards keeps them distinct |
| Memory.ShuffledDeck | app/src/main/java/com/example/calmstudy/ui/games/MemoryGame.kt:22-27 | the shuffled deck keeps its distinct face-down cards and carries their ids and symbols along |
| Memory.NewDeckSymbols | app/src/main/java/com/example/calmstudy/ui/games/MemoryGame.kt:21-31 | a deck whose symbols are the shuffled doubled emoji list carries each of the eight symbols on exactly two cards and no other symbol |
| Memory.NewDeckIncomplete | app/src/main/java/com/example/calmstudy/ui/games/MemoryGame.kt:67 | a freshly reset game is not complete |
| MiniGames.Other | app/src/main/java/com/example/calmstudy/ui/screens/MiniGamesScreen.kt:205 | the turn always passes to the other player |
| MiniGames.CheckWinner | app/src/main/java/com/example/calmstudy/ui/screens/MiniGamesScreen.kt:257-281 | true exactly when the player holds all three cells of a row, a column or a diagonal |
| MiniGames.MarkKeepsOtherWins | app/src/main/java/com/example/calmstudy/ui/screens/MiniGamesScreen.kt:193-196 | placing one player's mark cannot complete a line for the other player |
| MiniGames.CountMark | app/src/main/java/com/example/calmstudy/ui/screens/MiniGamesScreen.kt:194-196 | marking an empty cell raises the mover's count by one and leaves the other player's count unchanged |
| MiniGames.CountsFill | app/src/main/java/com/example/calmstudy/ui/screens/MiniGamesScreen.kt:202 | no cell is empty exactly when the two players' marks add up to the number of cells |
| MiniGames.Full | app/src/main/java/com/example/calmstudy/ui/screens/MiniGamesScreen.kt:202 | the draw check holds exactly when the marks of both players cover the board |
| MiniGames.EmptyBoard | app/src/main/java/com/example/calmstudy/ui/screens/MiniGamesScreen.kt:166 | nine empty cells |
| MiniGames.CountEmpty | app/src/main/java/com/example/calmstudy/ui/screens/MiniGamesScreen.kt:166 | an empty board holds no marks |
| MiniGames.EmptyBoardNoWinner | app/src/main/java/com/example/calmstudy/ui/screens/MiniGamesScreen.kt:218-220 | nobody has a line on an empty board |
| MiniGames.TicTacToeGame.constructor | app/src/main/java/com/example/calmstudy/ui/screens/MiniGamesScreen.kt:166-169 | an empty board, X to move, no winner, not over |
| MiniGames.TicTacToeGame.Click | app/src/main/java/com/example/calmstudy/ui/screens/MiniGamesScreen.kt:192-207 | a click on an empty cell of an unfinished game writes the mover's mark there only, and then the mover wins, or the full board ends the game without a winner, or the turn passes; other clicks change nothing; the winner is always the only player with a line and the mark counts alternate |
| MiniGames.TicTacToeGame.NewGame | app/src/main/java/com/example/calmstudy/ui/screens/MiniGamesScreen.kt:217-222 | new game restores the initial state |
| MiniGames.TicTacToeGame.NewGameValid | app/src/main/java/com/example/calmstudy/ui/screens/MiniGamesScreen.kt:217-222 | the initial state satisfies the game invariant |
| MiniGames.AtMostOneWinner | app/src/main/java/com/example/calmstudy/ui/screens/MiniGamesScreen.kt:199-206 | in any reachable game the two players never both hold a line |
| MiniGames.EmojisDistinct | app/src/main/java/com/example/calmstudy/ui/screens/MiniGamesScreen.kt:411 | the eight emojis are pairwise different |
| MiniGames.GenerateMemoryCards | app/src/main/java/com/example/calmstudy/ui/screens/MiniGamesScreen.kt:410-415 | 16 cards, all face down and unmatched, each of the eight values on exactly two of them |
| MiniGames.CountMatched | app/src/main/java/com/example/calmstudy/ui/screens/MiniGamesScreen.kt:326-346 | a stepping stone: the matched count is bounded by the deck size; the game invariant keeps it even |
| MiniGames.AllMatchedIsFullCount | app/src/main/java/com/example/calmstudy/ui/screens/MiniGamesScreen.kt:356 | every card is matched exactly when the matched count equals the deck size |
| MiniGames.AllMatched | app/src/main/java/com/example/calmstudy/ui/screens/MiniGamesScreen.kt:356 | the "new game" condition holds exactly when the matched count has reached the deck size |
| MiniGames.PairsKeptByFlips | app/src/main/java/com/example/calmstudy/ui/screens/MiniGamesScreen.kt:311-324 | changes that keep every value and matched flag keep each matched card's matched partner |
| MiniGames.PairsKeptByMatch | app/src/main/java/com/example/calmstudy/ui/screens/MiniGamesScreen.kt:331-333 | marking two different cards of equal value matched keeps each matched card's matched partner |
| MiniGames.CountMatchedUpdate | app/src/main/java/com/example/calmstudy/ui/screens/MiniGamesScreen.kt:331-339 | replacing one card changes the matched count by that card's change |
| MiniGames.CountMatchedNone | app/src/main/java/com/example/calmstudy/ui/screens/MiniGamesScreen.kt:410-415 | a deck of unmatched cards has no matched card |
| MiniGames.MemoryGame.constructor | app/src/main/java/com/example/calmstudy/ui/screens/MiniGamesScreen.kt:285-288 | the screen starts with a generated deck, nothing selected and clicks allowed |
| MiniGames.MemoryGame.Click | app/src/main/java/com/example/calmstudy/ui/screens/MiniGamesScreen.kt:311-324 | a click is taken only while clicks are allowed and the card is face down and unmatched; the first flips it and becomes `firstCard`; the second flips it, becomes `secondCard` and blocks clicks; otherwise nothing changes |
| MiniGames.MemoryGame.Resolve | app/src/main/java/com/example/calmstudy/ui/screens/MiniGamesScreen.kt:326-346 | equal values mark both selected cards matched, different ones turn both face down; then the selection is cleared and clicks are allowed again; matched cards stay face up, their number stays even, and every matched card has another matched card of the same value |
| MiniGames.MemoryGame.NewGame | app/src/main/java/com/example/calmstudy/ui/screens/MiniGamesScreen.kt:359-364 | new game deals a new deck and clears the selection |
| Survey.InitialQuestions | app/src/main/java/com/example/calmstudy/ui/screens/SurveyScreen.kt:25-58 | seven questions, all unanswered, the first five with three options and the last two with four |
| Survey.AllAnswered | app/src/main/java/com/example/calmstudy/ui/screens/SurveyScreen.kt:98 | the results button is offered exactly when no question is counted as unanswered |
| Survey.Cleared | app/src/main/java/com/example/calmstudy/ui/screens/SurveyScreen.kt:111 | retaking keeps every question and its options and leaves every one of them unanswered |
| Survey.CountAll | app/src/main/java/com/example/calmstudy/ui/screens/SurveyScreen.kt:111 | a list whose every answer is the same counts all its questions for that answer |
| Survey.Result | app/src/main/java/com/example/calmstudy/ui/screens/SurveyScreen.kt:168-179 | the advice given is backed by at least a third of the answers counted (the bad advice by strictly more), and a survey answered entirely with the first option gets the good advice |
| Survey.InitialNotAllAnswered | app/src/main/java/com/example/calmstudy/ui/screens/SurveyScreen.kt:98 | the results button is not offered on a fresh survey |
| Survey.ClearedIsInitial | app/src/main/java/com/example/calmstudy/ui/screens/SurveyScreen.kt:111 | clearing every answer gives back exactly the initial list |
| Survey.Count | app/src/main/java/com/example/calmstudy/ui/screens/SurveyScreen.kt:168-170 | a count is at most the number of questions and is zero exactly when no question has that answer |
| Survey.CountOthers | app/src/main/java/com/example/calmstudy/ui/screens/SurveyScreen.kt:168-170 | a stepping stone for `CountsPartition`: the answers outside 0..2 number at most the questions |
| Survey.CountsPartition | app/src/main/java/com/example/calmstudy/ui/screens/SurveyScreen.kt:168-170 | good + medium + bad + the remaining answers (fourth option or none) = the number of questions |
| Survey.CountsBounded | app/src/main/java/com/example/calmstudy/ui/screens/SurveyScreen.kt:168-170 | good + medium + bad never exceed the number of questions |
| Survey.CountUpdate | app/src/main/java/com/example/calmstudy/ui/screens/SurveyScreen.kt:89-92 | re-answering one question moves one unit from the old answer's count to the new one's |
| Survey.Recommend | app/src/main/java/com/example/calmstudy/ui/screens/SurveyScreen.kt:172-179 | good exactly when good >= medium and good >= bad; medium exactly when medium > good and medium >= bad; bad exactly when bad is strictly greater than both |
| Survey.ResultBadNeedsThirdOptions | app/src/main/java/com/example/calmstudy/ui/screens/SurveyScreen.kt:170-178 | the bad advice needs at least one third-option answer, and more of them than first-option ones |
| Survey.SurveyScreen.constructor | app/src/main/java/com/example/calmstudy/ui/screens/SurveyScreen.kt:25-60 | the screen starts with the initial questions and the results hidden |
| Survey.SurveyScreen.SelectAnswer | app/src/main/java/com/example/calmstudy/ui/screens/SurveyScreen.kt:89-92 | only the chosen question's answer changes; texts, options and other answers stay |
| Survey.SurveyScreen.ViewResults | app/src/main/java/com/example/calmstudy/ui/screens/SurveyScreen.kt:98-101 | the results are shown only for a fully answered survey |
| Survey.SurveyScreen.Retake | app/src/main/java/com/example/calmstudy/ui/screens/SurveyScreen.kt:110-113 | every answer is reset to -1, the texts and options stay, the results are hidden: the survey is back to its initial list |
| Timer.Pad2 | app/src/main/java/com/example/calmstudy/ui/screens/TimerScreen.kt:190 | `%02d` gives at least two characters, exactly two digits for 0..99 |
| Timer.Fields | app/src/main/java/com/example/calmstudy/ui/screens/TimerScreen.kt:191-193 | for s >= 0, minutes and seconds are below 60 and h*3600 + m*60 + sec = s; negative input gives non-positive fields |
| Timer.FormatTime | app/src/main/java/com/example/calmstudy/ui/screens/TimerScreen.kt:188-195 | the text has at least eight characters and, for s >= 0, the form `H..:MM:SS` |
| Timer.FormatTimeRoundTrip | app/src/main/java/com/example/calmstudy/ui/screens/TimerScreen.kt:188-195 | the text of every s >= 0 reads back as the same hours, minutes and seconds, which add up to s |
| Timer.OptionSecondsAreHours | app/src/main/java/com/example/calmstudy/ui/screens/TimerScreen.kt:33-40 | each option's seconds are exactly its hours times 3600: 60, 1800, 3600, 10800, 21600, 28800 |
| Timer.TimerScreen.ShowsCountdown | app/src/main/java/com/example/calmstudy/ui/screens/TimerScreen.kt:86 | the countdown is shown only for a running timer whose selection is one of the offered durations and whose remaining time is not negative |
| Timer.TimerScreen.Display | app/src/main/java/com/example/calmstudy/ui/screens/TimerScreen.kt:86-89 | the countdown text reads back as fields that add up to the remaining seconds |
| Timer.TimerScreen.constructor | app/src/main/java/com/example/calmstudy/ui/screens/TimerScreen.kt:29-31 | not running, nothing selected, no remaining time |
| Timer.TimerScreen.SelectOption | app/src/main/java/com/example/calmstudy/ui/screens/TimerScreen.kt:111-114 | choosing an option selects its seconds and starts the timer |
| Timer.TimerScreen.Cancel | app/src/main/java/com/example/calmstudy/ui/screens/TimerScreen.kt:90-93 | cancel stops the timer and clears the selection, hiding the countdown |
| Timer.TimerScreen.StartCountdown | app/src/main/java/com/example/calmstudy/ui/screens/TimerScreen.kt:49-50 | the effect copies the selected duration into the remaining time |
| Timer.TimerScreen.Tick | app/src/main/java/com/example/calmstudy/ui/screens/TimerScreen.kt:51-54 | each tick lowers the remaining time by exactly one |
| Timer.TimerScreen.Finish | app/src/main/java/com/example/calmstudy/ui/screens/TimerScreen.kt:59-60 | at zero the timer stops and the selection is cleared |
| Timer.TimerScreen.RunCountdown | app/src/main/java/com/example/calmstudy/ui/screens/TimerScreen.kt:48-61 | an uncancelled run takes exactly as many ticks as the selected seconds, never goes negative, and ends at zero with the timer stopped |
| RelaxMedia.Toggle | app/src/main/java/com/example/calmstudy/ui/screens/RelaxMediaScreen.kt:155-159 | the id changes membership and every other id keeps its status |
| RelaxMedia.ToggleTwice | app/src/main/java/com/example/calmstudy/ui/screens/RelaxMediaScreen.kt:155-159 | toggling twice restores the set |
| RelaxMedia.Filter | app/src/main/java/com/example/calmstudy/ui/screens/RelaxMediaScreen.kt:142 | the result holds exactly the items whose id is a favourite, in their original order |
| RelaxMedia.FilterCounts | app/src/main/java/com/example/calmstudy/ui/screens/RelaxMediaScreen.kt:142 | the filter keeps every copy of a favourite item and no copy of any other |
| RelaxMedia.Displayed | app/src/main/java/com/example/calmstudy/ui/screens/RelaxMediaScreen.kt:141-145 | favourites-only lists exactly the favourite items in order; otherwise the whole catalogue |
| RelaxMedia.DisplayedListsCatalogue | app/src/main/java/com/example/calmstudy/ui/screens/RelaxMediaScreen.kt:141-145 | every listed id belongs to the catalogue |
| RelaxMedia.EmptyDisplayExactly | app/src/main/java/com/example/calmstudy/ui/screens/RelaxMediaScreen.kt:140-147 | with favourites-only on, the list is empty exactly when no catalogue item is a favourite |
| RelaxMedia.ShowsEmptyMessage | app/src/main/java/com/example/calmstudy/ui/screens/RelaxMediaScreen.kt:147 | the empty-favourites message shows exactly when favourites-only is on and no catalogue item is a favourite |
| RelaxMedia.FavouriteHeaders | app/src/main/java/com/example/calmstudy/ui/screens/RelaxMediaScreen.kt:126-133 | the three favourites headers begin with the word "Улюблені" and the memes header does not |
| RelaxMedia.Title | app/src/main/java/com/example/calmstudy/ui/screens/RelaxMediaScreen.kt:126-133 | the header begins with "Улюблені" (favourite) exactly when favourites-only is on |
| RelaxMedia.TitleDistinct | app/src/main/java/com/example/calmstudy/ui/screens/RelaxMediaScreen.kt:126-133 | the six combinations of tab and switch get six different headers |
| RelaxMedia.RelaxMediaScreen.Shown | app/src/main/java/com/example/calmstudy/ui/screens/RelaxMediaScreen.kt:138-145 | what the selected tab lists comes from its own catalogue |
| RelaxMedia.RelaxMediaScreen.constructor | app/src/main/java/com/example/calmstudy/ui/screens/RelaxMediaScreen.kt:45-54 | nothing playing, all items shown, the audio tab, no favourites |
| RelaxMedia.RelaxMediaScreen.SetShowOnlyFavorites | app/src/main/java/com/example/calmstudy/ui/screens/RelaxMediaScreen.kt:85-88 | the switch changes only the favourites-only flag |
| RelaxMedia.RelaxMediaScreen.SelectTab | app/src/main/java/com/example/calmstudy/ui/screens/RelaxMediaScreen.kt:102-119 | a tab changes only the selected media type |
| RelaxMedia.RelaxMediaScreen.ToggleFavorite | app/src/main/java/com/example/calmstudy/ui/screens/RelaxMediaScreen.kt:154-160 | the heart toggles the id in the selected tab's set only; the other two sets are unchanged |
| RelaxMedia.RelaxMediaScreen.ClickAudio | app/src/main/java/com/example/calmstudy/ui/screens/RelaxMediaScreen.kt:161-198 | clicking the playing audio clears the playing id unless stopping throws; clicking another makes it the playing one once its player is created, and otherwise nothing changes; only catalogue audios ever play |
| RelaxMedia.RelaxMediaScreen.PlaybackEnded | app/src/main/java/com/example/calmstudy/ui/screens/RelaxMediaScreen.kt:180-191 | completion or a playback error clears the playing id |
| PositiveQuotes.TenQuotes | app/src/main/java/com/example/calmstudy/ui/screens/PositiveQuotesScreen.kt:20-31 | the list has ten quotes |
| PositiveQuotes.NextIndex | app/src/main/java/com/example/calmstudy/ui/screens/PositiveQuotesScreen.kt:92 | forward keeps the index in range: the next index, or 0 after the last |
| PositiveQuotes.PrevIndex | app/src/main/java/com/example/calmstudy/ui/screens/PositiveQuotesScreen.kt:84 | back keeps the index in range: the previous index, or the last after 0 |
| PositiveQuotes.PrevUndoesNext | app/src/main/java/com/example/calmstudy/ui/screens/PositiveQuotesScreen.kt:84-92 | back after forward, and forward after back, return to the same index |
| PositiveQuotes.NextTimesAdvances | app/src/main/java/com/example/calmstudy/ui/screens/PositiveQuotesScreen.kt:92 | before the end of the list, k forward clicks advance the index by k |
| PositiveQuotes.NextTimesCompose | app/src/main/java/com/example/calmstudy/ui/screens/PositiveQuotesScreen.kt:92 | a + b forward clicks are a clicks followed by b clicks |
| PositiveQuotes.FullCycle | app/src/main/java/com/example/calmstudy/ui/screens/PositiveQuotesScreen.kt:92 | as many forward clicks as there are quotes return to the starting index |
| PositiveQuotes.PositiveQuotesScreen.constructor | app/src/main/java/com/example/calmstudy/ui/screens/PositiveQuotesScreen.kt:18 | the carousel starts at the first quote |
| PositiveQuotes.PositiveQuotesScreen.CurrentQuote | app/src/main/java/com/example/calmstudy/ui/screens/PositiveQuotesScreen.kt:71 | the card always shows one of the quotes |
| PositiveQuotes.PositiveQuotesScreen.Next | app/src/main/java/com/example/calmstudy/ui/screens/PositiveQuotesScreen.kt:91-93 | both forward buttons move to the next index and keep it in range |
| PositiveQuotes.PositiveQuotesScreen.Previous | app/src/main/java/com/example/calmstudy/ui/screens/PositiveQuotesScreen.kt:83-85 | the back button moves to the previous index and keeps it in range |

## Left out

- Layout, styling, colours, icons, navigation and the other screens
  (home, profile, breathing, the animated background, the card animation)
  hold no rules beyond flag assignments and drawing, so they are not
  part of this model.
- Randomness is not uniform here. Shuffles and food draws are arbitrary
  parameter sequences that meet the bounds `nextInt` guarantees, so the
  properties hold for every outcome but nothing is said about
  probabilities.
- Snake.Update: requires the food draws to contain a cell off the grown
  snake (`DrawsSuffice`). The source's do-while loop would otherwise keep
  drawing; with fewer than 400 segments it ends with probability one,
  which a finite draw sequence cannot express.
- Snake.Update: requires a non-empty snake in a running game, because
  `snake.first()` throws on an empty list. No reachable state has one.
- Snake.SnakeGame.Tick: the 200 ms delay and the coroutine are not
  modelled; one call is one pass of the loop.
- Memory.MemoryGame.GetCards: returns the deck as a sequence of card
  references. It does not model that the Kotlin list is the same mutable
  object the game keeps, so a caller writing to it would change the game.
- Memory: `MemoryCard` is a data class in the source, so two cards with
  equal fields compare equal. The engine never compares cards, and the
  model uses object identity.
- MiniGames: the tic-tac-toe cells are the strings "", "X" and "O" in the
  source. The model uses `Empty` and `Mark(X)`/`Mark(O)`, which are
  equivalent for every comparison the code makes.
- MiniGames.MemoryGame.Resolve: the 500 ms delay is not modelled.
  Resolution is one step, run while `canFlip` is false and every click is
  refused.
- MiniGames.TicTacToeGame.NewGame, MiniGames.MemoryGame.NewGame: the
  source offers these buttons only when the game is over or every card
  is matched. The methods accept any state, which is weaker than the
  source and covers the offered case.
- Timer: the options are `Float` hours converted with
  `(hours * 3600).toLong()`. The model uses the six resulting whole
  numbers of seconds, and `OptionSecondsAreHours` relates them to the
  exact fractions. Float rounding is not modelled.
- Timer: the end-of-timer sound (`MediaPlayer`) and its release are not
  modelled.
- Timer.TimerScreen.Cancel: a cancel during the countdown also cancels
  the running effect when its keys change. The model does this by no
  longer calling `Tick`, and `RunCountdown` covers only a run without a
  cancel.
- Timer.Pad2, Timer.FormatTime: `String.format` uses the device's
  default locale, which may print non-ASCII digits. The model prints
  and parses only `'0'`..`'9'`, as under an English-style locale.
- Timer.FormatTime: for negative inputs the model follows Java's `%02d`,
  with a leading minus sign. The round trip is stated only for s >= 0,
  since the countdown never goes below zero.
- RelaxMedia: `MediaPlayer` creation, start, stop and release, the video
  `Intent`, and the toasts are platform calls and are not modelled. Only
  their effect on `currentlyPlayingIndex` is kept, with success or
  failure as parameters.
- RelaxMedia: the video player is left out. `VideoGrid` remembers a
  `selectedVideo` (RelaxMediaScreen.kt:324). A card click sets it (336),
  which shows the `VideoPlayer` (342-346). `VideoPlayer` never calls its
  `onDismiss` (351-375), so once set the selection is never cleared. The
  `onVideoClick` handler that would fire the video `Intent` (223-233) is
  passed to `VideoGrid` (322) but never called, so it is unreachable.
  Neither the player's view nor the selection feeds any other rule of
  the screen.
- RelaxMedia: the items' `duration` and `resourceId` fields are left out
  (only `id` and `title` are kept), because no rule reads them.
- The item layout of the survey's question cards, the results card text
  and the recommendation sentences are left out; the recommendation is
  the three-valued `Recommendation`.
