/**
 * The game object: the board and the flags are fields updated in place, as the main loop and
 * the event handler do. Each method is proved to move the object's state exactly as the
 * corresponding function of the state machine moves a session value.
 */
module Game {
  import opened Blueprint
  import opened Catalog
  import opened Rules
  import opened StateMachine

  class SokobanGame {
    var currentLevel: int
    var walls: seq<Pos>
    var player: Pos
    var boxes: seq<Pos>
    var targets: seq<Pos>
    var gameOver: bool
    var victory: bool
    var finalVictory: bool
    var winTime: int
    var failTime: int

    /** The board the fields hold. */
    function CurrentBoard(): Board
      reads this
    {
      Board(walls, player, boxes, targets)
    }

    /** The fields as a session value. */
    function State(): Session
      reads this
    {
      Session(currentLevel, CurrentBoard(), victory, gameOver, finalVictory, winTime, failTime)
    }

    ghost predicate Valid()
      reads this
    {
      SessionValid(State())
    }

    /** A new game: the first level, freshly parsed, no outcome, both timestamps zero. */
    constructor ()
      ensures Valid() && State() == Start()
    {
      currentLevel := 0;
      new;
      InitGame();
      winTime := 0;
      failTime := 0;
      finalVictory := false;
    }

    /** Re-parses the current level and clears the victory, failure and final-victory flags. */
    method InitGame()
      requires 0 <= currentLevel < |Levels|
      modifies this
      ensures Valid() && State() == Restart(old(State()))
    {
      var b := ParseMap(Levels[currentLevel]);
      walls, player, boxes, targets := b.walls, b.player, b.boxes, b.targets;
      gameOver := false;
      victory := false;
      finalVictory := false;
      assert State() == Restart(old(State()));
    }

    /**
     * Sets the outcome after a successful move: won when all targets are covered, otherwise lost
     * when a box off target is stuck, otherwise nothing. The board is not touched.
     */
    method CheckGameState(now: int)
      modifies this
      ensures State() == Evaluate(old(State()), now)
    {
      var b := CurrentBoard();
      if Won(b) {
        victory := true;
        gameOver := false;
        winTime := now;
        if currentLevel == |Levels| - 1 {
          finalVictory := true;
        }
        return;
      }
      var i := 0;
      while i < |b.boxes|
        invariant 0 <= i <= |b.boxes|
        invariant forall j :: 0 <= j < i ==> !(b.boxes[j] !in b.targets && IsBoxStuck(b, b.boxes[j]))
      {
        var box := b.boxes[i];
        if box !in b.targets && IsBoxStuck(b, box) {
          gameOver := true;
          victory := false;
          failTime := now;
          return;
        }
        i := i + 1;
      }
    }

    /**
     * Moves the player by (dx, dy), pushing a box that is in the way, then evaluates the board.
     * Nothing happens once the level is won or lost, or when the step is blocked.
     */
    method MovePlayer(dx: int, dy: int, now: int)
      requires Valid()
      modifies this
      ensures Valid() && State() == Move(old(State()), dx, dy, now)
    {
      MovePreservesValid(State(), dx, dy, now);
      if victory || gameOver {
        return;
      }
      var dest := player.Plus(dx, dy);
      if dest in walls {
        return;
      }
      if dest in boxes {
        var beyond := dest.Plus(dx, dy);
        if beyond in walls || beyond in boxes {
          return;
        }
        boxes := RemoveFirst(boxes, dest);
        boxes := boxes + [beyond];
      }
      player := dest;
      CheckGameState(now);
    }

    /**
     * Handles a batch of events in order; the result tells whether the program quits.
     */
    method HandleEvents(events: seq<Event>, now: int) returns (quit: bool)
      requires Valid()
      modifies this
      ensures Valid() && Outcome(State(), quit) == Dispatch(old(State()), events, now)
    {
      var i := 0;
      while i < |events|
        invariant 0 <= i <= |events|
        invariant Valid()
        invariant Dispatch(old(State()), events, now) == Dispatch(State(), events[i..], now)
      {
        assert events[i..][0] == events[i] && events[i..][1..] == events[i + 1..];
        match events[i] {
          case Quit =>
            return true;
          case Resize =>
          case KeyDown(k) =>
            if gameOver && now - failTime > Delay {
              InitGame();
              return false;
            }
            match k {
              case ArrowUp => MovePlayer(0, -1, now);
              case ArrowDown => MovePlayer(0, 1, now);
              case ArrowLeft => MovePlayer(-1, 0, now);
              case ArrowRight => MovePlayer(1, 0, now);
              case Escape => return true;
              case KeyF =>
              case OtherKey =>
            }
        }
        i := i + 1;
      }
      quit := false;
    }

    /**
     * The timed part of a main-loop pass; the result tells whether the program ends.
     */
    method Tick(now: int) returns (exit: bool)
      requires Valid()
      modifies this
      ensures Valid() && Outcome(State(), exit) == StateMachine.Tick(old(State()), now)
    {
      TickProgress(State(), now);
      if finalVictory {
        return true;
      }
      if victory && now - winTime > Delay {
        if currentLevel < |Levels| - 1 {
          currentLevel := currentLevel + 1;
          InitGame();
        } else {
          // A win on the last level has already set the final victory (LastLevelWinIsFinal),
          // so the branch that would set it here is never reached.
          assert false;
        }
      }
      exit := false;
    }

    /** One pass of the main loop: the pending events, then the timed progression. */
    method RunFrame(events: seq<Event>, now: int) returns (exit: bool)
      requires Valid()
      modifies this
      ensures Valid() && Outcome(State(), exit) == Frame(old(State()), events, now)
    {
      exit := HandleEvents(events, now);
      if !exit {
        exit := Tick(now);
      }
    }
  }
}
