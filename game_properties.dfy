/** What the round state machine guarantees across calls: the state invariant,
    monotone zoom within a round, the frozen finished round, the loss after the
    allowed misses, and the button guesses against the catalog. */
module GameProperties {
  import opened Text
  import opened Stations
  import opened GameRound

  /** No event enters a new round. */
  predicate WithinRound(events: seq<Event>) {
    forall k :: 0 <= k < |events| ==> !events[k].Start?
  }

  /** Every single event keeps the invariant. */
  lemma StepKeepsConsistent(s: ComponentState, e: Event)
    requires Admissible(e) && Consistent(s)
    ensures Consistent(Step(s, e))
  {
  }

  /** Any sequence of starts, guesses and timer expiries keeps the invariant. */
  lemma {:induction false} RunKeepsConsistent(s: ComponentState, events: seq<Event>)
    requires AllAdmissible(events) && Consistent(s)
    ensures Consistent(Run(s, events))
    decreases |events|
  {
    if events != [] {
      StepKeepsConsistent(s, events[0]);
      RunKeepsConsistent(Step(s, events[0]), events[1..]);
    }
  }

  /** From the component's creation on, the attempt count stays below the maximum,
      the zoom stays in [MinZoom, InitialZoom], the map zoom follows the round zoom,
      and a correct answer always comes with the end of the round. */
  lemma {:induction false} ReachableBounds(events: seq<Event>)
    requires AllAdmissible(events)
    ensures var r := Run(InitialState(), events);
      0 <= r.game.attempts < r.game.maxAttempts == MaxAttempts &&
      MinZoom <= r.game.zoomLevel <= InitialZoom &&
      r.view.zoom == r.game.zoomLevel &&
      (r.game.isCorrect ==> r.game.gameOver)
  {
    RunKeepsConsistent(InitialState(), events);
  }

  /** The zoom after `n` zoom-outs, as long as the floor is not reached, is the
      initial zoom minus `n` steps. */
  lemma {:induction false} ZoomAfterMissesClosedForm(n: nat)
    requires InitialZoom - n * ZoomDecrease >= MinZoom
    ensures ZoomAfterMisses(n) == InitialZoom - n * ZoomDecrease
  {
    if n > 0 {
      ZoomAfterMissesClosedForm(n - 1);
    }
  }

  /** With three attempts at most two zoom-outs happen, so the zoom never drops
      below 14 and the floor MinZoom never comes into play. */
  lemma FloorNeverBinds(s: ComponentState)
    requires Consistent(s)
    ensures s.game.zoomLevel == InitialZoom - s.game.attempts * ZoomDecrease
    ensures s.game.zoomLevel >= InitialZoom - (MaxAttempts - 1) * ZoomDecrease == 14
    ensures s.game.zoomLevel > MinZoom
  {
    ZoomAfterMissesClosedForm(s.game.attempts);
  }

  /** Within a round the station stays, the attempt count never goes down, and the
      zoom never goes up nor below the floor. */
  lemma {:induction false} RoundIsMonotone(s: ComponentState, events: seq<Event>)
    requires AllAdmissible(events) && WithinRound(events) && Consistent(s)
    ensures var r := Run(s, events);
      r.game.currentStation == s.game.currentStation &&
      r.game.attempts >= s.game.attempts &&
      MinZoom <= r.game.zoomLevel <= s.game.zoomLevel &&
      (s.game.gameOver ==> r.game.gameOver)
    decreases |events|
  {
    if events != [] {
      StepKeepsConsistent(s, events[0]);
      RoundIsMonotone(Step(s, events[0]), events[1..]);
    }
  }

  /** Once a round is over, guesses and the timer leave the round and the map as
      they are; only a new start can clear `gameOver`. */
  lemma {:induction false} FinishedRoundIsFrozen(s: ComponentState, events: seq<Event>)
    requires AllAdmissible(events) && WithinRound(events) && s.game.gameOver
    ensures Run(s, events).game == s.game
    ensures Run(s, events).view == s.view
    decreases |events|
  {
    if events != [] {
      FinishedRoundIsFrozen(Step(s, events[0]), events[1..]);
    }
  }

  /** A guess after the round is over (or before any round) changes nothing. */
  lemma GuessWhenIdleIsIgnored(s: ComponentState, stationName: string)
    requires s.game.currentStation.None? || s.game.gameOver
    ensures Guessed(s, stationName) == s
  {
  }

  /** The only event that turns a finished round back into a running one is a start. */
  lemma OnlyStartReopens(s: ComponentState, e: Event)
    requires Admissible(e) && s.game.gameOver && !Step(s, e).game.gameOver
    ensures e.Start?
  {
  }

  /** Wrong guesses only: the round ends exactly when the allowed attempts are used
      up, it is then lost, and the attempt count stops one short of the maximum. */
  lemma {:induction false} MissesEndRound(s: ComponentState, events: seq<Event>)
    requires Consistent(s) && Active(s)
    requires forall k :: 0 <= k < |events| ==>
      events[k].Guess? && !IsMatch(events[k].stationName, s.game.currentStation.value.name)
    ensures AllAdmissible(events)
    ensures var r := Run(s, events);
      (r.game.gameOver <==> s.game.attempts + |events| >= MaxAttempts) &&
      !r.game.isCorrect &&
      r.game.attempts == if s.game.attempts + |events| < MaxAttempts
                         then s.game.attempts + |events| else MaxAttempts - 1
    decreases |events|
  {
    if events != [] {
      var next := Step(s, events[0]);
      StepKeepsConsistent(s, events[0]);
      if next.game.gameOver {
        FinishedRoundIsFrozen(next, events[1..]);
      } else {
        MissesEndRound(next, events[1..]);
      }
    }
  }

  /** A fresh round is lost on its third wrong guess and not before. */
  lemma ThirdMissLoses(i: nat, events: seq<Event>)
    requires i < |MetroStations|
    requires forall k :: 0 <= k < |events| ==>
      events[k].Guess? && !IsMatch(events[k].stationName, MetroStations[i].name)
    ensures AllAdmissible(events)
    ensures Run(NewRound(i), events).game.gameOver <==> |events| >= 3
    ensures !Run(NewRound(i), events).game.isCorrect
  {
    MissesEndRound(NewRound(i), events);
  }

  /** Among the guess buttons, one per catalog station, exactly the button of the
      current station matches. */
  lemma ExactlyOneButtonMatches(s: ComponentState)
    requires Consistent(s) && s.game.currentStation.Some?
    ensures forall k :: 0 <= k < |MetroStations| ==>
      (IsMatch(MetroStations[k].name, s.game.currentStation.value.name) <==>
       MetroStations[k] == s.game.currentStation.value)
  {
    var j :| 0 <= j < |MetroStations| && MetroStations[j] == s.game.currentStation.value;
    NamesDistinctIgnoringCase();
  }

  /** The worked round: the station is Weesperplein; a guess of "Nieuwmarkt" costs
      an attempt and one zoom step, then "Weesperplein" wins. */
  lemma WorkedRound()
    ensures var s1 := Guessed(NewRound(1), "Nieuwmarkt");
      s1.game.attempts == 1 && s1.game.zoomLevel == 15 && !s1.game.gameOver &&
      var s2 := Guessed(s1, "Weesperplein");
      s2.game.isCorrect && s2.game.gameOver && s2.showConfetti
  {
    var s0 := NewRound(1);
    assert s0.game.currentStation.value.name == "Weesperplein";
    assert !IsMatch("Nieuwmarkt", "Weesperplein") by {
      if IsMatch("Nieuwmarkt", "Weesperplein") {
        MatchNeedsEqualLength("Nieuwmarkt", "Weesperplein");
      }
    }
    var s1 := Guessed(s0, "Nieuwmarkt");
    assert s1.game.attempts == 1 && s1.game.zoomLevel == 15 && !s1.game.gameOver;
    assert IsMatch("Weesperplein", s1.game.currentStation.value.name);
  }

  /** Case is ignored on both sides: an all-capitals guess finds its station. */
  lemma CapitalisedGuessMatches()
    ensures IsMatch("NIEUWMARKT", "Nieuwmarkt")
  {
    var g, n := "NIEUWMARKT", "Nieuwmarkt";
    forall k | 0 <= k < |g| ensures LowerChar(g[k]) == LowerChar(n[k]) {
      assert g[k] == n[k] || (k > 0 && IsUpper(g[k]) && g[k] as int + 32 == n[k] as int);
    }
    MatchIffCharwise(g, n);
  }

  /** Surrounding spaces make a guess wrong: nothing is trimmed before comparing. */
  lemma PaddedGuessMisses()
    ensures !IsMatch("  amsterdam CENTRAAL ", "Amsterdam Centraal")
  {
    if IsMatch("  amsterdam CENTRAAL ", "Amsterdam Centraal") {
      MatchNeedsEqualLength("  amsterdam CENTRAAL ", "Amsterdam Centraal");
    }
  }

  /** Three wrong guesses lose the round, yet the attempt counter shows 2: the
      final miss sets `gameOver` without counting itself. */
  lemma LostRoundShowsTwoAttempts(i: nat, a: string, b: string, c: string)
    requires i < |MetroStations|
    requires !IsMatch(a, MetroStations[i].name) && !IsMatch(b, MetroStations[i].name)
    requires !IsMatch(c, MetroStations[i].name)
    ensures var r := Guessed(Guessed(Guessed(NewRound(i), a), b), c);
      r.game.gameOver && !r.game.isCorrect && r.game.attempts == 2 &&
      r.game.attempts != r.game.maxAttempts
  {
  }
}
