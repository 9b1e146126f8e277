# Ludo rooms, scoring and result display — a Dafny model

This project models the rules core of a four-player online Ludo game:

- **Move legality.** The client-side `canPawnMove` decides whether a pawn may move for a die value.
- **Scoring.** The server's scoring service computes per-colour totals, derives capture counts, moves score to the striker on a capture and picks a winner by score.
- **Room lifecycle.** The socket handlers load a room, check the `winner` and `paused` guards, apply one transition, save the room and emit messages. The transitions are roll, move, quit, draw offer/accept/decline, pause, surrender, room-data fetch and room deletion.
- **Client helpers.** The game clock, the final-standings overlay and the live scoreboard.

Modules and files:

| file | module | models |
|---|---|---|
| `js_object.dfy` | `JsObject` | plain objects as insertion-ordered key/value lists (`Object.keys`, `Object.values`, `o[k]`, `o[k] = v`) |
| `text.dfy` | `Text` | decimal printing of whole numbers, `padStart`, ASCII `toLowerCase`/`toUpperCase` |
| `entities.dfy` | `Entities` | pawns, players, rooms, sessions |
| `move_legality.dfy` | `MoveLegality` | `canPawnMove` |
| `scoring.dfy` | `Scoring` | the scoring service; in-place pawn updates on an `array<Pawn>`; the score-table loops as `while` loops |
| `store.dfy` | `Store` | the stored rooms and an ordered log of saves, deletes and sends (class `RoomStore`) |
| `room_methods.dfy` | `RoomMethods` | the room/player methods whose code is not part of this model, as parameters |
| `game_handler.dfy` | `GameHandler` | the in-game handlers; each has a specification function on `World` values and a method on a `RoomStore` proved equal to it |
| `room_handler.dfy` | `RoomHandler` | room-data fetch (deadline-driven turn change) and delete-only-if-empty |
| `standings.dfy` | `Standings` | the stable sort by score, then captures, shared by both client components |
| `game_timer.dfy` | `GameTimer` | clock text, colour thresholds, hide-when-no-time |
| `winner_overlay.dfy` | `WinnerOverlay` | standings, winner statistics and rank, badges, colour classes, headline |
| `scoreboard.dfy` | `Scoreboard` | the scoreboard's state (class `Scoreboard`) and its derived views |

Main results:

- **Every branch of `canPawnMove`.** A pawn at its base moves only on a 1 or a 6, whatever its colour. Off base, it moves iff `position + roll` stays within its colour's ceiling (73, 79, 85 or 91). A pawn of an unknown colour never moves. An overshoot yields `undefined`, not `false`.
- **Captures.** A capture between two distinct pawns conserves the total score over all pawns.
- **The tie-break is inert.** Colours tied on score have equal derived capture counts, so `determineWinner` returns the colour of the first player whose total is maximal.
- **A finished room is absorbing.** No sequence of in-game events changes a room whose `winner` is set. Events aimed only at such a room leave no trace at all.
- **Second save of a roll.** It writes back the room as it was loaded, so the stored result does not depend on the die value.
- **Both standings lists.** Each is an ordered, stable permutation of the score table.
- **The clock text.** It reads back to the exact number of seconds.

Behaviours of the code that a reader might not expect, kept as they are:

- Accepting a draw needs a single `acceptDraw`, not a unanimous vote.
- Surrender hands the decision to `getWinnerByScore` on the whole room. Whether that method ignores the surrendering player is not visible.
- A full tie on score and captures is not left unresolved. It returns the first tied colour in player order, and the capture tie-break can never change that.
- The deadline-driven turn change happens only when room data is fetched. It is not guarded by `winner`, so it also applies to a finished room.

## Model

| member | source | states |
|---|---|---|
| MoveLegality.Ceiling | src/components/Gameboard/Map/canPawnMove.js:5-19 | a ceiling exists exactly for red, blue, green and yellow |
| MoveLegality.CanPawnMove | src/components/Gameboard/Map/canPawnMove.js:1-24 | At base: `true` iff the roll is 1 or 6, never `undefined`. Off base: truthy iff the colour has a ceiling and position + roll is at most that ceiling. An unknown colour gives `false`; a known colour that overshoots gives `undefined`. |
| MoveLegality.SmallerRollStaysLegal | src/components/Gameboard/Map/canPawnMove.js:4-17 | off base, a legal roll stays legal when made smaller |
| MoveLegality.BaseRuleIgnoresColor | src/components/Gameboard/Map/canPawnMove.js:2-3 | at base, two pawns of any colours get the same answer for the same roll |
| Scoring.CalculatePlayerScore | backend/services/scoringService.js:1-4 | filtering by colour and then summing equals an independent pawn-by-pawn sum in which each pawn contributes its score if it has that colour and 0 otherwise |
| Scoring.PlayerScoreAppend | backend/services/scoringService.js:1-4 | a colour's total is additive over any split of the pawn list |
| Scoring.PlayerScoreBounds | backend/services/scoringService.js:1-4 | the total is 0 when no pawn has the colour, and non-negative when no pawn score is negative |
| Scoring.CaptureCount | backend/services/scoringService.js:23-27 | the capture count is the floor of total/10: `10*r <= total < 10*r + 10` |
| Scoring.CaptureCountMonotone | backend/services/scoringService.js:23-27 | the capture count depends only on the total and does not decrease as the total grows |
| Scoring.ResetScore | backend/services/scoringService.js:20 | resetting zeroes the score and keeps every other field |
| Scoring.CaptureConservesTotal | backend/services/scoringService.js:18-21 | for distinct striker and victim: the striker gains exactly the victim's prior score, the victim ends at 0, and the total over all pawns is unchanged |
| Scoring.CaptureMovesScoreBetweenColors | backend/services/scoringService.js:18-21 | per colour, a capture adds the victim's prior score to the striker's colour and removes it from the victim's colour |
| Scoring.HandleCaptureScoring | backend/services/scoringService.js:18-21 | the pawn array is updated in place to the striker-absorbs-then-victim-resets state, and the total is conserved for distinct pawns |
| Scoring.UpdatePawnScoreAfterMove | backend/services/scoringService.js:14-16 | only the moved pawn changes, to `updateScore`'s result; when `updateScore` adds the steps to the score, that colour's total rises by the steps and every other colour's total is unchanged |
| Scoring.GetAllPlayerScores | backend/services/scoringService.js:6-12 | the keys are the player colours, without repeats, in first-seen player order; each value is that colour's total |
| Scoring.MaxOf | backend/services/scoringService.js:31 | absent exactly for an empty list; otherwise a member of the list that bounds every member |
| Scoring.TopKeysMembers | backend/services/scoringService.js:33 | a colour is kept by the filter iff its entry holds the maximum |
| Scoring.TopKeysFirst | backend/services/scoringService.js:33 | the first key holding the maximum comes first among the filtered keys |
| Scoring.TopOfScoreTable | backend/services/scoringService.js:29-51 | with players present, the first top key is the colour of the first player whose total is maximal, and all top keys have the same derived capture count |
| Scoring.BreakTie | backend/services/scoringService.js:39-50 | no result iff there are no tied colours; otherwise the first tied colour with the most derived captures, every earlier one having strictly fewer |
| Scoring.TopPlayersFacts | backend/services/scoringService.js:30-33 | there are top keys iff there are players; the first is the colour of the first player with a maximal total; all have the same derived capture count |
| Scoring.DetermineWinner | backend/services/scoringService.js:29-51 | no result iff there are no players; otherwise a player's colour of maximal total, and no earlier player has a maximal total |
| Scoring.FormatScoresForClient | backend/services/scoringService.js:53-64 | keys are the player colours in first-seen order; each row holds the name of the last player with that colour, the colour, its total and its capture count |
| GameHandler.MoveSpec | backend/handlers/gameHandler.js:9-27 | No change if the room is missing, finished or paused, or the move is invalid. Otherwise the saved room is the moved room after the turn change, ended with `getWinner`'s result when truthy. The log gets the score broadcast, the winner broadcast (only then) and the save. Other rooms are untouched. |
| GameHandler.HandleMovePawn | backend/handlers/gameHandler.js:9-27 | the store ends exactly as `MoveSpec` says |
| GameHandler.RollSpec | backend/handlers/gameHandler.js:29-41 | No change if the room is missing, paused or finished. Otherwise the roll is broadcast and stored. If the roller's player cannot move, the stored room becomes the loaded room after a turn change. |
| GameHandler.HandleRollDice | backend/handlers/gameHandler.js:29-41 | the store ends exactly as `RollSpec` says |
| GameHandler.RollWriteBackIgnoresDie | backend/handlers/gameHandler.js:30-40 | when the roller cannot move, the stored rooms do not depend on the die value |
| GameHandler.QuitSpec | backend/handlers/gameHandler.js:43-50 | A finished room is left alone. Otherwise the room is ended as "quit", even when paused, and the log gets the winner broadcast and the save. |
| GameHandler.HandleQuitGame | backend/handlers/gameHandler.js:43-50 | the store ends exactly as `QuitSpec` says |
| GameHandler.QuitIsFinal | backend/handlers/gameHandler.js:43-50 | if `endGame` records its outcome, a quit finishes the room, and no later events change it |
| GameHandler.OfferDrawSpec | backend/handlers/gameHandler.js:52-60 | the rooms never change; an offer is broadcast only for an unfinished, unpaused room |
| GameHandler.HandleOfferDraw | backend/handlers/gameHandler.js:52-60 | the store ends exactly as `OfferDrawSpec` says |
| GameHandler.AcceptDrawSpec | backend/handlers/gameHandler.js:62-69 | an unfinished, unpaused room is ended as "draw" and saved after the broadcast; otherwise nothing happens |
| GameHandler.HandleAcceptDraw | backend/handlers/gameHandler.js:62-69 | the store ends exactly as `AcceptDrawSpec` says |
| GameHandler.DeclineDrawSpec | backend/handlers/gameHandler.js:71-78 | the rooms never change; a refusal is broadcast only for an unfinished, unpaused room |
| GameHandler.HandleDeclineDraw | backend/handlers/gameHandler.js:71-78 | the store ends exactly as `DeclineDrawSpec` says |
| GameHandler.PauseSpec | backend/handlers/gameHandler.js:80-90 | an unfinished room gets `paused` set to the requested value, even its current one; it is saved and then the flag is broadcast |
| GameHandler.HandlePauseGame | backend/handlers/gameHandler.js:80-90 | the store ends exactly as `PauseSpec` says |
| GameHandler.Remaining | backend/handlers/gameHandler.js:97 | a player is kept iff it is in the room and its id differs from the surrendering one |
| GameHandler.RemainingCounts | backend/handlers/gameHandler.js:97 | each player with another id is kept as many times as it occurs; players with the surrendering id are dropped |
| GameHandler.RemainingAppend | backend/handlers/gameHandler.js:97 | the filter keeps room order: it distributes over any split of the player list |
| GameHandler.SurrenderOutcome | backend/handlers/gameHandler.js:99-106 | with exactly one other player left, the outcome is a remaining player's colour; otherwise it is `getWinnerByScore`'s result |
| GameHandler.TwoPlayerSurrender | backend/handlers/gameHandler.js:97-101 | in a two-player room, whichever of the two surrenders, the other one's colour is the outcome |
| GameHandler.SurrenderSpec | backend/handlers/gameHandler.js:92-109 | an unfinished, unpaused room is ended with the surrender outcome, broadcast and saved; otherwise nothing happens |
| GameHandler.HandleSurrender | backend/handlers/gameHandler.js:92-109 | the store ends exactly as `SurrenderSpec` says |
| GameHandler.Step | backend/handlers/gameHandler.js:111-118 | any in-game event touches only its own room, creates or deletes no room, only appends to the log, and has no effect at all on a finished room |
| GameHandler.RunKeepsRoomsAndLog | backend/handlers/gameHandler.js:9-109 | over any sequence of in-game events, the set of room ids is unchanged and the log only grows |
| GameHandler.FinishedRoomIsFrozen | backend/handlers/gameHandler.js:9-109 | over any sequence of in-game events, a room whose `winner` is set stays exactly as it was |
| GameHandler.FinishedRoomIsSilent | backend/handlers/gameHandler.js:9-109 | events aimed only at a finished room leave the whole world unchanged: no save and no message |
| RoomHandler.DataMessages | backend/handlers/roomHandler.js:13-22 | Every message goes to the requester only. In order: the room data; then the winner, iff one is set; then `getFormattedScores`' table and `getRemainingGameTime`'s value, iff the room has started. Nothing else is sent. |
| RoomHandler.GetDataSpec | backend/handlers/roomHandler.js:7-23 | Before the deadline (`RoomHandler.Current` keeps the room), the rooms are unchanged and only the data messages are logged. Once it has passed, the room after `changeMovingPlayer` is saved before those messages, which describe it. A missing room changes nothing. |
| RoomHandler.HandleGetData | backend/handlers/roomHandler.js:7-23 | the store ends exactly as `GetDataSpec` says |
| RoomHandler.GetDataBeforeDeadlineKeepsRooms | backend/handlers/roomHandler.js:9-12 | any number of fetches before the deadline leave the rooms unchanged |
| RoomHandler.DeleteSpec | backend/handlers/roomHandler.js:35-47 | An existing room with no players is deleted, and the new room list goes to the other connections and to the requester. Otherwise no room changes, and only the requester receives the error. |
| RoomHandler.HandleDeleteRoom | backend/handlers/roomHandler.js:35-47 | the store ends exactly as `DeleteSpec` says |
| RoomHandler.OccupiedRoomSurvivesDeletes | backend/handlers/roomHandler.js:39-46 | a room with players survives any sequence of delete requests unchanged |
| Text.PadStartZeros | src/components/GameTimer/GameTimer.jsx:12 | the input preceded by exactly enough '0's to reach the width, none when it is already that long |
| Text.PadStartKeepsValue | src/components/GameTimer/GameTimer.jsx:12 | padding a numeral keeps it a numeral of the same value |
| Text.ToLower | src/components/WinnerOverlay/WinnerOverlay.jsx:71 | same length; each ASCII capital becomes its small letter, which upper-cases back to it; every other character is kept; no capital remains |
| Text.CapitalizeIgnoresCase | src/components/WinnerOverlay/WinnerOverlay.jsx:223 | capitalising (`Text.Capitalize`) changes letter case only: lower-casing the result gives the lower-cased input |
| GameTimer.FormatTime | src/components/GameTimer/GameTimer.jsx:9-13 | the text is the minutes `s/60`, a single ':' and then the seconds `s mod 60` left-padded with '0' to two characters |
| GameTimer.ClockRoundTrip | src/components/GameTimer/GameTimer.jsx:9-13 | reading the text back gives `minutes*60 + seconds`, which equals the original number of seconds |
| GameTimer.FormatTimeInjective | src/components/GameTimer/GameTimer.jsx:9-13 | different times never produce the same text |
| GameTimer.GetTimeColor | src/components/GameTimer/GameTimer.jsx:15-19 | critical iff s ≤ 60, warning iff 60 < s ≤ 300, normal iff s > 300 |
| GameTimer.TimeColorMonotone | src/components/GameTimer/GameTimer.jsx:15-19 | less time left never looks less urgent |
| GameTimer.Render | src/components/GameTimer/GameTimer.jsx:4-29 | something is rendered iff the time is present and positive; its text is clock text that reads back as exactly the remaining seconds, in that time's colour |
| Standings.Insert | src/components/WinnerOverlay/WinnerOverlay.jsx:44-49 | inserting a row into an ordered list keeps it ordered and adds exactly that row |
| Standings.SortStandings | src/components/WinnerOverlay/WinnerOverlay.jsx:43-50 | the result is a permutation of the input, ordered by score descending and then by captures descending |
| Standings.SortIsStable | src/components/WinnerOverlay/WinnerOverlay.jsx:44-49 | rows tied on both keys come out in their input order |
| Standings.LeaderIsTop | src/components/Scoreboard/Scoreboard.jsx:44-51 | the first sorted row is an input row, and no input row outranks it or has a higher score |
| WinnerOverlay.SortedPlayers | src/components/WinnerOverlay/WinnerOverlay.jsx:43-50 | the standings are an ordered permutation of the table's values |
| WinnerOverlay.FindIndex | src/components/WinnerOverlay/WinnerOverlay.jsx:59 | returns the first index with the colour, or -1 iff there is none |
| WinnerOverlay.GetWinnerStats | src/components/WinnerOverlay/WinnerOverlay.jsx:52-62 | Absent iff the winner is empty or has no entry. Otherwise it gives the entry's score and captures, a rank of 0 iff no standing has that colour (else the 1-based first position of that colour), and the number of standings. |
| WinnerOverlay.ColorIsFound | src/components/WinnerOverlay/WinnerOverlay.jsx:59 | a colour carried by a table row is found among the standings |
| WinnerOverlay.WinnerIsRanked | src/components/WinnerOverlay/WinnerOverlay.jsx:52-62 | for a table keyed by colour, a winner with an entry has rank at least 1 |
| WinnerOverlay.FormattedTableIsKeyedByColor | backend/services/scoringService.js:53-64 | the server's formatted table carries each key as its row's colour |
| WinnerOverlay.GetPlayerColorClass | src/components/WinnerOverlay/WinnerOverlay.jsx:64-72 | each of the four colours, in any letter case, maps to its class, and everything else maps to 'bg-game-gray' |
| WinnerOverlay.ColorClassIgnoresCase | src/components/WinnerOverlay/WinnerOverlay.jsx:71 | lower-casing the colour first changes nothing |
| WinnerOverlay.GetRankBadge | src/components/WinnerOverlay/WinnerOverlay.jsx:74-81 | medals for positions 0, 1 and 2; from 3 on, a grey badge whose text is a decimal numeral without leading zero that reads back as position + 1 |
| WinnerOverlay.RankBadgesDistinct | src/components/WinnerOverlay/WinnerOverlay.jsx:74-81 | different positions get different badges |
| WinnerOverlay.Headline | src/components/WinnerOverlay/WinnerOverlay.jsx:214-217 | 'Game Draw!' iff draw, 'Game Ended' iff quit or surrender, 'Game Over!' otherwise |
| WinnerOverlay.WinsLine | src/components/WinnerOverlay/WinnerOverlay.jsx:220-224 | present iff the headline is 'Game Over!'; it names the entry's player when that name is non-empty, else the capitalised colour |
| Scoreboard.Scoreboard.constructor | src/components/Scoreboard/Scoreboard.jsx:5-8 | both tables are empty; the board is hidden and not minimised |
| Scoreboard.Scoreboard.HandleScoreUpdate | src/components/Scoreboard/Scoreboard.jsx:15-19 | The old table becomes the previous one, the new table is installed and the board becomes visible. Each colour's change is new minus old. The placeholder shows iff the new table is empty. |
| Scoreboard.Scoreboard.ToggleScoreboard | src/components/Scoreboard/Scoreboard.jsx:24-26 | flips `isMinimized` and nothing else, so two toggles restore it |
| Scoreboard.Scoreboard.SortedPlayers | src/components/Scoreboard/Scoreboard.jsx:44-51 | the rows are an ordered permutation of the current table's values |
| Scoreboard.Scoreboard.GetScoreChange | src/components/Scoreboard/Scoreboard.jsx:56-60 | previous score + change = current score, where `Scoreboard.ScoreIn` counts a missing entry as 0 and otherwise takes the entry's score |
| Scoreboard.Scoreboard.ShowsPlaceholder | src/components/Scoreboard/Scoreboard.jsx:157 | the placeholder shows iff the board is hidden or there is no sorted row to show |
| Scoreboard.Scoreboard.IsLeading | src/components/Scoreboard/Scoreboard.jsx:217 | a leading row is outranked by no row on the board and has the highest score |
| Scoreboard.LeaderHasHighestScore | src/components/Scoreboard/Scoreboard.jsx:212-219 | exactly the first row is leading, and no row has a higher score than it |

## Left out

- Storage and transport: Mongo queries, socket rooms and connections, JSON serialisation and the change-stream rebroadcast in `backend/services/roomService.js` are not modelled. Storage is a map from room id to room. Messages are entries in an ordered log.
- Concurrency: each handler is one atomic step. The unlocked load-modify-save race between handlers on the same room is not modelled.
- Randomness: `rollDice` is the parameter `rolled`, constrained to 1..6.
- The clock: `Date.now()` is the parameter `now`.
- The room and pawn methods whose code is not part of this model are parameters of type `RoomMethods.RoomModel`, with nothing assumed about them:
  - `getPawn`, `movePawn` (including capture and track geometry), `changeMovingPlayer`, `getWinner`, `endGame`, `getPlayer`, `canMove`, `getWinnerByScore`, `getFormattedScores`, `getRemainingGameTime`, and the helper `isMoveValid`.
  - The one exception is `GameHandler.QuitIsFinal`, which assumes that `endGame` records its outcome as the winner.
- Scoring.ResetScore: `resetScore` is not part of this model. It is taken to zero the score and nothing else.
- Scoring.UpdatePawnScoreAfterMove: `updateScore` is not part of this model. It is a parameter, and the per-colour totals are stated only when it adds the steps moved to the pawn's score.
- `getPlayer`'s result in `handleSurrender` is unused. A missing player there is not modelled as an error.
- A `null` room from `getRoom` makes every game handler and the data handler throw on their first field access. That is modelled as "no effect". An unhandled rejection is not otherwise represented.
- `handleGetAllRooms` and `handleCreateRoom` are not modelled. They are not part of the room state machine.
- JavaScript value coercions are not modelled:
  - `winner` and `getWinner()` are optional strings, and "truthy" means present and non-empty.
  - `paused` is a boolean.
  - Scores and captures are integers, so `x || 0` is `x`.
  - Score rows always carry all four fields.
  - Key order of integer-like keys is not modelled (colour keys are never integer-like).
  - Inherited keys such as "constructor" are not modelled: every lookup by key is an own-key lookup. This covers the colour-class lookup, the overlay's `finalScores[winner]` (winner statistics and the "Wins!" line) and the scoreboard's `scores[color]` and `previousScores[color]`.
- WinnerOverlay.GetPlayerColorClass: lower-casing covers ASCII letters only.
- WinnerOverlay.WinsLine: capitalising the colour upper-cases ASCII letters only (`Text.Capitalize`).
- Times are whole non-negative seconds. Fractional inputs to `formatTime`, `progressPercentage` and `toFixed` are floating-point display maths.
- React hooks, memoisation, timers, animation flags (`showOverlay`, `isAnimating`, the score-change badge) and navigation are not modelled. The overlay's render guard on `showOverlay` is one of these.
- React may run `handleScoreUpdate` with a stale `scores` captured in its closure. The model reads the current state.
