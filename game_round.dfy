/** The round/guess state machine of the game component (src/components/Game.tsx):
    the component's three pieces of state, the two transitions `startNewGame` and
    `handleGuess`, and the confetti timer's reset of the celebration flag. */
module GameRound {
  import opened Text
  import opened Stations

  datatype Option<T> = None | Some(value: T)

  /** The round record (`GameState` of src/types/game.ts). */
  datatype GameState = GameState(
    currentStation: Option<MetroStation>,
    attempts: int,
    maxAttempts: int,
    isCorrect: bool,
    gameOver: bool,
    zoomLevel: int)

  /** What the map shows (`ViewState` of src/types/game.ts). */
  datatype ViewState = ViewState(longitude: real, latitude: real, zoom: int)

  /** The whole state of the component: its three `useState` slots. */
  datatype ComponentState = ComponentState(game: GameState, view: ViewState, showConfetti: bool)

  /** Attempts allowed per round. */
  const MaxAttempts: int := 3

  /** A guess is taken only while a station is set and the round is not over. */
  predicate Active(s: ComponentState) {
    s.game.currentStation.Some? && !s.game.gameOver
  }

  /** One zoom-out step: `Math.max(zoomLevel - ZOOM_DECREASE, MIN_ZOOM)`. */
  function ZoomOut(z: int): (r: int)
    ensures r >= MinZoom
    ensures z >= MinZoom ==> r <= z
    ensures z > MinZoom ==> r < z
    ensures z - ZoomDecrease >= MinZoom ==> r == z - ZoomDecrease
    ensures z - ZoomDecrease < MinZoom ==> r == MinZoom
  {
    if z - ZoomDecrease >= MinZoom then z - ZoomDecrease else MinZoom
  }

  /** The zoom reached from the initial zoom after `n` zoom-outs. */
  function ZoomAfterMisses(n: nat): (z: int)
    ensures MinZoom <= z <= InitialZoom
    ensures n > 0 ==> z <= ZoomAfterMisses(n - 1)
  {
    if n == 0 then InitialZoom else ZoomOut(ZoomAfterMisses(n - 1))
  }

  /** The state invariant every reachable component state satisfies. */
  predicate Consistent(s: ComponentState) {
    var g := s.game;
    g.maxAttempts == MaxAttempts &&
    0 <= g.attempts < g.maxAttempts &&
    g.zoomLevel == ZoomAfterMisses(g.attempts) &&
    s.view.zoom == g.zoomLevel &&
    (g.isCorrect ==> g.gameOver) &&
    (g.gameOver ==> g.isCorrect || g.attempts == g.maxAttempts - 1) &&
    (s.showConfetti ==> g.isCorrect) &&
    match g.currentStation
    case None => !g.gameOver
    case Some(st) =>
      st in MetroStations &&
      s.view.longitude == st.coordinates.longitude &&
      s.view.latitude == st.coordinates.latitude
  }

  /** The state the component is created with, before the first round starts. */
  function InitialState(): (r: ComponentState)
    ensures r.game.currentStation.None? && !Active(r)
    ensures r.game.attempts == 0 && r.game.zoomLevel == InitialZoom && !r.showConfetti
    ensures Consistent(r)
  {
    ComponentState(
      GameState(None, 0, MaxAttempts, false, false, InitialZoom),
      ViewState(4.9, 52.37, InitialZoom),
      false)
  }

  /** `startNewGame` with the station at catalog index `i` (the random draw). */
  function NewRound(i: nat): (r: ComponentState)
    requires i < |MetroStations|
    ensures r.game.currentStation == Some(MetroStations[i]) && Active(r)
    ensures r.game.attempts == 0 && r.game.maxAttempts == MaxAttempts
    ensures !r.game.isCorrect && r.game.zoomLevel == InitialZoom
    ensures r.view == ViewState(MetroStations[i].coordinates.longitude,
                                MetroStations[i].coordinates.latitude, InitialZoom)
    ensures !r.showConfetti
    ensures Consistent(r)
  {
    var station := MetroStations[i];
    ComponentState(
      GameState(Some(station), 0, MaxAttempts, false, false, InitialZoom),
      ViewState(station.coordinates.longitude, station.coordinates.latitude, InitialZoom),
      false)
  }

  /** `handleGuess(stationName)`. */
  function Guessed(s: ComponentState, stationName: string): (r: ComponentState)
    // ignored outside an active round
    ensures !Active(s) ==> r == s
    // the station, the attempt limit and the map centre never change
    ensures r.game.currentStation == s.game.currentStation
    ensures r.game.maxAttempts == s.game.maxAttempts
    ensures r.view.longitude == s.view.longitude && r.view.latitude == s.view.latitude
    // a win: correct iff the lower-cased names are equal; the celebration starts
    ensures Active(s) ==>
      (r.game.isCorrect <==> s.game.isCorrect || IsMatch(stationName, s.game.currentStation.value.name))
    ensures Active(s) && IsMatch(stationName, s.game.currentStation.value.name) ==> r.showConfetti
    ensures r.showConfetti && !s.showConfetti ==> r.game.isCorrect
    ensures Active(s) && !IsMatch(stationName, s.game.currentStation.value.name) ==>
      r.showConfetti == s.showConfetti
    // the round ends on a win or on the guess that would use up the last attempt
    ensures Active(s) ==>
      (r.game.gameOver <==>
        IsMatch(stationName, s.game.currentStation.value.name) ||
        s.game.attempts + 1 >= s.game.maxAttempts)
    // a guess that ends the round changes neither the attempt count nor the zoom
    ensures r.game.gameOver ==>
      r.game.attempts == s.game.attempts && r.game.zoomLevel == s.game.zoomLevel && r.view == s.view
    // a guess that does not end the round counts one attempt and zooms out one step
    ensures Active(s) && !r.game.gameOver ==>
      r.game.attempts == s.game.attempts + 1 &&
      r.game.zoomLevel == ZoomOut(s.game.zoomLevel) &&
      r.view.zoom == r.game.zoomLevel &&
      r.showConfetti == s.showConfetti
  {
    if !Active(s) then s
    else
      var newAttempts := s.game.attempts + 1;
      if IsMatch(stationName, s.game.currentStation.value.name) then
        s.(game := s.game.(isCorrect := true, gameOver := true), showConfetti := true)
      else if newAttempts >= s.game.maxAttempts then
        s.(game := s.game.(gameOver := true))
      else
        var newZoomLevel := ZoomOut(s.game.zoomLevel);
        s.(game := s.game.(attempts := newAttempts, zoomLevel := newZoomLevel),
           view := s.view.(zoom := newZoomLevel))
  }

  /** The five-second timer started by a win: it only turns the celebration off. */
  function ConfettiCleared(s: ComponentState): (r: ComponentState)
    ensures !r.showConfetti
    ensures r.game == s.game && r.view == s.view
  {
    s.(showConfetti := false)
  }

  /** The events the component reacts to. */
  datatype Event = Start(index: nat) | Guess(stationName: string) | ConfettiTimeout

  /** A start event draws an index inside the catalog. */
  predicate Admissible(e: Event) {
    e.Start? ==> e.index < |MetroStations|
  }

  predicate AllAdmissible(events: seq<Event>) {
    forall k :: 0 <= k < |events| ==> Admissible(events[k])
  }

  function Step(s: ComponentState, e: Event): ComponentState
    requires Admissible(e)
  {
    match e
    case Start(i) => NewRound(i)
    case Guess(name) => Guessed(s, name)
    case ConfettiTimeout => ConfettiCleared(s)
  }

  /** The state after handling `events` in order. */
  function Run(s: ComponentState, events: seq<Event>): ComponentState
    requires AllAdmissible(events)
    decreases |events|
  {
    if events == [] then s else Run(Step(s, events[0]), events[1..])
  }

  /** The component, with its state held in mutable fields updated by its handlers. */
  class Game {
    var gameState: GameState
    var viewState: ViewState
    var showConfetti: bool

    function State(): ComponentState
      reads this
    {
      ComponentState(gameState, viewState, showConfetti)
    }

    /** The initial `useState` values. */
    constructor ()
      ensures State() == InitialState()
    {
      gameState := GameState(None, 0, MaxAttempts, false, false, InitialZoom);
      viewState := ViewState(4.9, 52.37, InitialZoom);
      showConfetti := false;
    }

    /** `startNewGame`, with the random draw passed in as `i`. */
    method StartNewGame(i: nat)
      requires i < |MetroStations|
      modifies this
      ensures State() == NewRound(i)
      ensures Consistent(State())
    {
      var randomStation := MetroStations[i];
      gameState := GameState(Some(randomStation), 0, MaxAttempts, false, false, InitialZoom);
      viewState := ViewState(randomStation.coordinates.longitude,
                             randomStation.coordinates.latitude, InitialZoom);
      showConfetti := false;
    }

    /** `handleGuess(stationName)`. */
    method HandleGuess(stationName: string)
      modifies this
      ensures State() == Guessed(old(State()), stationName)
      ensures Consistent(old(State())) ==> Consistent(State())
    {
      if gameState.currentStation.None? || gameState.gameOver {
        return;
      }
      var isCorrect := Lower(stationName) == Lower(gameState.currentStation.value.name);
      var newAttempts := gameState.attempts + 1;
      if isCorrect {
        gameState := gameState.(isCorrect := true, gameOver := true);
        showConfetti := true;
      } else if newAttempts >= gameState.maxAttempts {
        gameState := gameState.(gameOver := true);
      } else {
        var newZoomLevel := ZoomOut(gameState.zoomLevel);
        gameState := gameState.(attempts := newAttempts, zoomLevel := newZoomLevel);
        viewState := viewState.(zoom := newZoomLevel);
      }
    }

    /** The timer callback `() => setShowConfetti(false)`. */
    method ConfettiTimeout()
      modifies this
      ensures State() == ConfettiCleared(old(State()))
      ensures Consistent(old(State())) ==> Consistent(State())
    {
      showConfetti := false;
    }
  }
}
