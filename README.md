# Amsterdam metro guesser: the round state machine in Dafny

The game shows a map centred on one Amsterdam metro station. The player guesses
the station's name by pressing one of eight buttons. A round allows three
attempts. Each wrong guess that does not end the round zooms the map out by one
step. This project models the state machine behind that game: the component's
round record, the map view and the celebration flag, the two transitions
`startNewGame` and `handleGuess`, and the timer that switches the celebration off.

- `text.dfy` (module `Text`): the case folding the guess comparison uses
  (`toLowerCase` on ASCII letters) and the comparison itself, `IsMatch`.
- `stations.dfy` (module `Stations`): the eight-station catalog and the zoom
  constants 16, 1 and 13, with lemmas about them.
- `game_round.dfy` (module `GameRound`): the state records as datatypes. Each
  transition is a pure function on the whole component state: `InitialState`,
  `NewRound`, `Guessed` and `ConfettiCleared`. The class `Game` holds the
  same state in mutable fields, as the component's three `useState` slots do.
  Its methods `StartNewGame`, `HandleGuess` and `ConfettiTimeout` are proved to
  produce exactly the state the matching function gives. `Consistent` is the
  state invariant. `Step` and `Run` replay a sequence of events.
- `game_properties.dfy` (module `GameProperties`): lemmas about whole sequences
  of events. They cover the invariant, zoom monotonicity within a round, the
  frozen finished round, the loss on the third miss and the button guesses.

The random station draw `Math.floor(Math.random() * metroStations.length)` is
a parameter `i` with `i < |MetroStations|`. The confetti timeout is an event
with no time attached.

Two details of `handleGuess` that the model keeps as written:
- The guess is lower-cased but not trimmed (src/components/Game.tsx:56), so a
  guess with surrounding spaces is wrong (`PaddedGuessMisses`).
- A win and the final miss do not increment `attempts`
  (src/components/Game.tsx:60, :64). The counter never reaches `maxAttempts`,
  so a lost round shows 2/3, never 3/3 (`LostRoundShowsTwoAttempts`). A
  finished round is either won or has `attempts == maxAttempts - 1`.

## Model

| member | source | states |
|---|---|---|
| Text.LowerChar | src/components/Game.tsx:56 | the result of lower-casing one character is never an upper-case letter; a character that is not an upper-case letter is unchanged; an upper-case letter moves to the matching lower-case letter |
| Text.Lower | src/components/Game.tsx:56 | lower-casing keeps the length and lower-cases each character in its place |
| Text.LowerIdempotent | src/components/Game.tsx:56 | lower-casing an already lower-cased string changes nothing |
| Text.LowerFixedIff | src/components/Game.tsx:56 | a string is its own lower-case form if and only if it has no upper-case letter |
| Text.MatchIgnoresCase | src/components/Game.tsx:56 | the guess comparison gives the same answer when either side is lower-cased first |
| Text.MatchIffCharwise | src/components/Game.tsx:56 | guess and name match if and only if they have equal length and the same lower-cased character at every position |
| Text.MatchNeedsEqualLength | src/components/Game.tsx:56 | a matching guess has the name's exact length, so no whitespace is trimmed |
| Stations.CatalogSize | src/data/stations.ts:3-44 | the catalog has 8 stations, so it is non-empty and a draw index in [0, 8) always exists |
| Stations.IdsDistinct | src/data/stations.ts:3-44 | station ids are pairwise distinct |
| Stations.NameLengthsDistinct | src/data/stations.ts:3-44 | station names have pairwise distinct lengths |
| Stations.NamesDistinctIgnoringCase | src/data/stations.ts:3-44 | no two station names match each other, even ignoring case |
| Stations.ZoomConstants | src/data/stations.ts:46-48 | the initial zoom is at or above the floor, and each zoom-out step is positive |
| GameRound.ZoomOut | src/components/Game.tsx:66 | a zoom-out never goes below the floor and never raises a zoom that is at or above the floor; above the floor it lowers the zoom by exactly one step or clamps it to the floor |
| GameRound.ZoomAfterMisses | src/components/Game.tsx:43-66 | the zoom after n zoom-outs from the initial zoom stays within [MinZoom, InitialZoom] and never exceeds the zoom after n-1 zoom-outs |
| GameRound.InitialState | src/components/Game.tsx:14-29 | the component starts with no station, no attempts, the initial zoom and no celebration, and satisfies the invariant |
| GameRound.NewRound | src/components/Game.tsx:35-51 | a start sets the drawn station, 0 attempts out of 3, not correct, not over and the initial zoom; it centres the view on the station at the initial zoom, clears the celebration and satisfies the invariant |
| GameRound.Guessed | src/components/Game.tsx:53-74 | outside an active round a guess changes nothing. Otherwise it is correct iff the lower-cased names are equal, a correct guess starts the celebration, and a wrong guess leaves the celebration flag as it was. The round ends on a correct guess or when attempts+1 reaches the maximum, with attempts, zoom and view unchanged. Any other guess adds exactly one attempt and zooms the round and the view out by one step. The station, maxAttempts and map centre never change |
| GameRound.ConfettiCleared | src/components/Game.tsx:62 | the timer turns the celebration off and leaves the round and the view alone |
| GameRound.Game.constructor | src/components/Game.tsx:14-29 | the fields hold the initial state |
| GameRound.Game.StartNewGame | src/components/Game.tsx:35-51 | the fields hold the new round for the drawn index, which satisfies the invariant |
| GameRound.Game.HandleGuess | src/components/Game.tsx:53-74 | the fields hold the state a guess produces from the old state, and the invariant is kept |
| GameRound.Game.ConfettiTimeout | src/components/Game.tsx:62 | only the celebration flag is cleared, and the invariant is kept |
| GameProperties.StepKeepsConsistent | src/components/Game.tsx:35-74 | a start, a guess or a timer expiry keeps the state invariant |
| GameProperties.RunKeepsConsistent | src/components/Game.tsx:35-74 | any sequence of starts, guesses and timer expiries keeps the state invariant |
| GameProperties.ReachableBounds | src/components/Game.tsx:14-74 | in every reachable state: 0 <= attempts < maxAttempts = 3; the zoom is within [MinZoom, InitialZoom]; the view zoom equals the round zoom; a correct answer implies the round is over |
| GameProperties.ZoomAfterMissesClosedForm | src/components/Game.tsx:66 | above the floor, the zoom after n zoom-outs is the initial zoom minus n steps |
| GameProperties.FloorNeverBinds | src/components/Game.tsx:57-71 | in every consistent state the zoom is 16 minus the attempts, never below 14, and so never at the floor 13 |
| GameProperties.RoundIsMonotone | src/components/Game.tsx:53-74 | without a new start, the station stays and attempts never decrease. The zoom never increases and never drops below the floor, and a finished round stays finished |
| GameProperties.FinishedRoundIsFrozen | src/components/Game.tsx:54 | once the round is over, guesses and timer expiries leave the round record and the view unchanged |
| GameProperties.GuessWhenIdleIsIgnored | src/components/Game.tsx:54 | a guess with no station set or after the round is over changes no state at all |
| GameProperties.OnlyStartReopens | src/components/Game.tsx:35-74 | only a start turns a finished round back into an unfinished one |
| GameProperties.MissesEndRound | src/components/Game.tsx:57-71 | under wrong guesses only, the round ends iff attempts plus the number of guesses reaches 3; it is not won, and attempts stop at 2 |
| GameProperties.ThirdMissLoses | src/components/Game.tsx:57-64 | a fresh round that gets only wrong guesses is over iff there were at least 3 of them, and is never won |
| GameProperties.ExactlyOneButtonMatches | src/components/Game.tsx:100-103 | of the eight guess buttons, a button's name matches the current station iff it is that station's button |
| GameProperties.WorkedRound | src/components/Game.tsx:53-74 | for station Weesperplein, guessing "Nieuwmarkt" gives attempts 1, zoom 15 and the round still open; then guessing "Weesperplein" wins, ends the round and starts the celebration |
| GameProperties.CapitalisedGuessMatches | src/components/Game.tsx:56 | "NIEUWMARKT" matches "Nieuwmarkt" |
| GameProperties.PaddedGuessMisses | src/components/Game.tsx:56 | "  amsterdam CENTRAAL " does not match "Amsterdam Centraal", because nothing is trimmed |
| GameProperties.LostRoundShowsTwoAttempts | src/components/Game.tsx:57-64 | three wrong guesses in a fresh round lose it with attempts at 2, not at maxAttempts |

## Left out

- Map rendering (`Map`, `Marker`, the access token), the `ReactConfetti` animation and all JSX markup. These are display only.
- The map's `onMove` handler (src/components/Game.tsx:83). It replaces the view state from user interaction, but the map is created with `interactive={false}`. The property "the view zoom equals the round zoom" assumes no such events.
- The five-second delay of the confetti timer. Its callback is the `ConfettiTimeout` event, which may arrive at any point. That includes after a later start, as a stale timer from an earlier round would.
- `Math.random`: the station draw is the index parameter of `NewRound` and `StartNewGame`. Uniformity of the draw is not modelled.
- Text.LowerChar: folds ASCII letters only, not full Unicode `toLowerCase`. Every station name is ASCII.
- Coordinates are `real` values that are only copied into the view. No arithmetic is done on them. Zoom values are `int`, because every zoom constant is an integer.
- The mount effect that calls `startNewGame` once (`useEffect`). It corresponds to calling `StartNewGame` on a freshly constructed `Game`.
- The React hook mechanics (`useState` setters and batching). Each handler's updates are applied at once.
- Start events may arrive at any point of an event trace. The component starts a round only on mount (src/components/Game.tsx:31-33) and from "Play Again", which is shown only once `gameOver` holds (src/components/Game.tsx:116-128). The traces therefore over-approximate what the component allows, so every lemma about them also holds for the component.
