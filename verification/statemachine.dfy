/**
 * The puzzle state machine on session values: level start and restart, the win/stuck evaluation
 * that follows a successful move, key and window events, and the timed level advance.
 * Clock readings are the parameter `now`; win and failure times are kept as in the game object.
 */
module StateMachine {
  import opened Blueprint
  import opened Catalog
  import opened Rules

  /** Everything the game object keeps about the puzzle. */
  datatype Session = Session(
    level: int,
    board: Board,
    victory: bool,
    gameOver: bool,
    finalVictory: bool,
    winTime: int,
    failTime: int)

  /** Milliseconds the win and failure messages stay before the game moves on. */
  const Delay := 3000

  datatype Key = ArrowUp | ArrowDown | ArrowLeft | ArrowRight | KeyF | Escape | OtherKey

  /** The window events the game reacts to (a resize only re-lays-out the picture). */
  datatype Event = Quit | KeyDown(key: Key) | Resize

  /** A session after a batch of events or a frame, and whether the program ends. */
  datatype Outcome = Outcome(session: Session, quit: bool)

  /**
   * What the game keeps true at all times: the level index is in range, walls and targets are
   * those of the level, the box count is that of the level, the board invariant holds, each flag
   * agrees with the board, and the final victory is exactly a victory on the last level.
   */
  predicate SessionValid(s: Session) {
    && 0 <= s.level < |Levels|
    && s.board.walls == Parse(Levels[s.level]).walls
    && s.board.targets == Parse(Levels[s.level]).targets
    && |s.board.boxes| == |Parse(Levels[s.level]).boxes|
    && BoardValid(s.board)
    && (s.victory ==> Won(s.board) && !s.gameOver)
    && (s.gameOver ==> Lost(s.board) && !Won(s.board))
    && (s.finalVictory <==> s.victory && s.level == LastLevel)
  }

  /** (Re)initialising the current level: a fresh board and all three flags cleared. */
  function Restart(s: Session): (r: Session)
    requires 0 <= s.level < |Levels|
    ensures SessionValid(r)
    ensures r.board == Parse(Levels[s.level]) && !r.victory && !r.gameOver && !r.finalVictory
    ensures r.level == s.level && r.winTime == s.winTime && r.failTime == s.failTime
  {
    LevelHasPlayer(s.level);
    ParsedBoardValid(Levels[s.level]);
    s.(board := Parse(Levels[s.level]), gameOver := false, victory := false, finalVictory := false)
  }

  /** The session the game object starts with: the first level, both timestamps zero. */
  function Start(): (r: Session)
    ensures SessionValid(r) && r.level == 0 && !r.victory && !r.gameOver && !r.finalVictory
    ensures r.board == Parse(Levels[0]) && r.winTime == 0 && r.failTime == 0
  {
    Restart(Session(0, Empty, false, false, false, 0, 0))
  }

  /**
   * The check that runs after a successful move: a board whose targets are all covered is won
   * (and the last level's win is the final victory); otherwise a stuck box off target loses.
   */
  function Evaluate(s: Session, now: int): Session {
    if Won(s.board) then
      s.(victory := true, gameOver := false, winTime := now,
         finalVictory := s.finalVictory || s.level == LastLevel)
    else if Lost(s.board) then
      s.(gameOver := true, victory := false, failTime := now)
    else s
  }

  /** A move request: ignored once the level is won or lost, or when the step is blocked. */
  function Move(s: Session, dx: int, dy: int, now: int): (r: Session)
    ensures s.victory || s.gameOver ==> r == s
    ensures Step(s.board, dx, dy).None? ==> r == s
    ensures r.level == s.level
  {
    if s.victory || s.gameOver then s
    else match Step(s.board, dx, dy)
      case None => s
      case Some(b) => Evaluate(s.(board := b), now)
  }

  /**
   * A batch of events, handled in order. A quit event or Escape ends the program. Once the level
   * is lost and more than `Delay` has passed, any key restarts it and the rest of the batch is
   * dropped. Arrow keys move the player; other keys and resizes leave the puzzle alone.
   */
  function Dispatch(s: Session, events: seq<Event>, now: int): Outcome
    requires 0 <= s.level < |Levels|
    decreases |events|
  {
    if events == [] then Outcome(s, false)
    else
      match events[0]
      case Quit => Outcome(s, true)
      case Resize => Dispatch(s, events[1..], now)
      case KeyDown(k) =>
        if s.gameOver && now - s.failTime > Delay then Outcome(Restart(s), false)
        else
          match k
          case ArrowUp => Dispatch(Move(s, 0, -1, now), events[1..], now)
          case ArrowDown => Dispatch(Move(s, 0, 1, now), events[1..], now)
          case ArrowLeft => Dispatch(Move(s, -1, 0, now), events[1..], now)
          case ArrowRight => Dispatch(Move(s, 1, 0, now), events[1..], now)
          case Escape => Outcome(s, true)
          case KeyF => Dispatch(s, events[1..], now)
          case OtherKey => Dispatch(s, events[1..], now)
  }

  /**
   * The part of one main-loop pass after the events: the final victory ends the program;
   * otherwise a win older than `Delay` advances to the next level, or on the last level marks
   * the final victory.
   */
  function Tick(s: Session, now: int): Outcome
    requires 0 <= s.level < |Levels|
  {
    if s.finalVictory then Outcome(s, true)
    else if s.victory && now - s.winTime > Delay then
      if s.level < LastLevel then Outcome(Restart(s.(level := s.level + 1)), false)
      else Outcome(s.(finalVictory := true), false)
    else Outcome(s, false)
  }

  /** One pass of the main loop: the pending events, then the timed progression. */
  function Frame(s: Session, events: seq<Event>, now: int): Outcome
    requires 0 <= s.level < |Levels|
  {
    var handled := Dispatch(s, events, now);
    if handled.quit then handled
    else
      DispatchLevel(s, events, now);
      Tick(handled.session, now)
  }

  // ---------------------------------------------------------------------------
  // Properties

  /** Events never leave the level index out of range: they keep it or restart it. */
  lemma {:induction false} DispatchLevel(s: Session, events: seq<Event>, now: int)
    requires 0 <= s.level < |Levels|
    ensures Dispatch(s, events, now).session.level == s.level
    decreases |events|
  {
    if events != [] {
      match events[0]
      case Quit =>
      case Resize => DispatchLevel(s, events[1..], now);
      case KeyDown(k) =>
        if !(s.gameOver && now - s.failTime > Delay) {
          match k
          case ArrowUp => DispatchLevel(Move(s, 0, -1, now), events[1..], now);
          case ArrowDown => DispatchLevel(Move(s, 0, 1, now), events[1..], now);
          case ArrowLeft => DispatchLevel(Move(s, -1, 0, now), events[1..], now);
          case ArrowRight => DispatchLevel(Move(s, 1, 0, now), events[1..], now);
          case Escape =>
          case KeyF => DispatchLevel(s, events[1..], now);
          case OtherKey => DispatchLevel(s, events[1..], now);
        }
    }
  }

  /**
   * A successful move on a level in progress leaves the new board in place and sets the flags
   * from it: won exactly when every target is covered, final victory exactly when that happens
   * on the last level, lost exactly when the board is not won and a box off target is stuck.
   */
  lemma MoveOutcome(s: Session, dx: int, dy: int, now: int)
    requires SessionValid(s) && !s.victory && !s.gameOver && Step(s.board, dx, dy).Some?
    ensures var b, r := Step(s.board, dx, dy).value, Move(s, dx, dy, now);
      && r.board == b
      && r.victory == Won(b)
      && r.finalVictory == (Won(b) && s.level == LastLevel)
      && r.gameOver == (!Won(b) && Lost(b))
      && r.winTime == (if Won(b) then now else s.winTime)
      && r.failTime == (if !Won(b) && Lost(b) then now else s.failTime)
  {
  }

  /** A move keeps the session invariant, in particular the board invariant and the box count. */
  lemma MovePreservesValid(s: Session, dx: int, dy: int, now: int)
    requires SessionValid(s)
    ensures SessionValid(Move(s, dx, dy, now))
  {
  }

  /** Any batch of events keeps the session invariant. */
  lemma {:induction false} DispatchPreservesValid(s: Session, events: seq<Event>, now: int)
    requires SessionValid(s)
    ensures SessionValid(Dispatch(s, events, now).session)
    decreases |events|
  {
    if events != [] {
      match events[0]
      case Quit =>
      case Resize => DispatchPreservesValid(s, events[1..], now);
      case KeyDown(k) =>
        if !(s.gameOver && now - s.failTime > Delay) {
          match k
          case ArrowUp =>
            MovePreservesValid(s, 0, -1, now);
            DispatchPreservesValid(Move(s, 0, -1, now), events[1..], now);
          case ArrowDown =>
            MovePreservesValid(s, 0, 1, now);
            DispatchPreservesValid(Move(s, 0, 1, now), events[1..], now);
          case ArrowLeft =>
            MovePreservesValid(s, -1, 0, now);
            DispatchPreservesValid(Move(s, -1, 0, now), events[1..], now);
          case ArrowRight =>
            MovePreservesValid(s, 1, 0, now);
            DispatchPreservesValid(Move(s, 1, 0, now), events[1..], now);
          case Escape =>
          case KeyF => DispatchPreservesValid(s, events[1..], now);
          case OtherKey => DispatchPreservesValid(s, events[1..], now);
        }
    }
  }

  /**
   * After a loss, once more than `Delay` has passed, the first key of a batch restarts the same
   * level with a fresh board and cleared flags, and the remaining events are dropped.
   */
  lemma RestartAfterLoss(s: Session, k: Key, rest: seq<Event>, now: int)
    requires SessionValid(s) && s.gameOver && now - s.failTime > Delay
    ensures var r := Dispatch(s, [KeyDown(k)] + rest, now);
      && !r.quit
      && r.session.level == s.level
      && r.session.board == Parse(Levels[s.level])
      && !r.session.victory && !r.session.gameOver && !r.session.finalVictory
  {
  }

  /** Before the delay has passed, a lost level ignores every key but Escape. */
  lemma LostIgnoresKeys(s: Session, k: Key, rest: seq<Event>, now: int)
    requires SessionValid(s) && s.gameOver && now - s.failTime <= Delay && k != Escape
    ensures Dispatch(s, [KeyDown(k)] + rest, now) == Dispatch(s, rest, now)
  {
  }

  /**
   * The timed progression keeps the invariant. A win older than `Delay` below the last level
   * moves to the next level with a fresh board and cleared flags; a final victory ends the
   * program; in every other case nothing changes.
   */
  lemma TickProgress(s: Session, now: int)
    requires SessionValid(s)
    ensures var r := Tick(s, now);
      && SessionValid(r.session)
      && r.quit == s.finalVictory
      && (s.victory && !s.finalVictory && now - s.winTime > Delay ==>
            && r.session.level == s.level + 1
            && r.session.board == Parse(Levels[s.level + 1])
            && !r.session.victory && !r.session.gameOver && !r.session.finalVictory)
      && (!(s.victory && now - s.winTime > Delay) ==> r.session == s)
  {
  }

  /**
   * The branch of the main loop that marks the final victory when a win is reached on the last
   * level is never taken: the evaluation after the winning move has already marked it.
   */
  lemma LastLevelWinIsFinal(s: Session)
    requires SessionValid(s) && s.victory && !s.finalVictory
    ensures s.level < LastLevel
  {
  }

  /** A whole pass of the main loop keeps the invariant. */
  lemma FramePreservesValid(s: Session, events: seq<Event>, now: int)
    requires SessionValid(s)
    ensures SessionValid(Frame(s, events, now).session)
  {
    DispatchPreservesValid(s, events, now);
    TickProgress(Dispatch(s, events, now).session, now);
  }

  /** Any run of frames, from the starting session on, keeps the invariant. */
  lemma {:induction false} RunPreservesValid(s: Session, frames: seq<(seq<Event>, int)>)
    requires SessionValid(s)
    ensures SessionValid(Run(s, frames))
    decreases |frames|
  {
    if frames != [] {
      FramePreservesValid(s, frames[0].0, frames[0].1);
      RunPreservesValid(Frame(s, frames[0].0, frames[0].1).session, frames[1..]);
    }
  }

  /** The session after a run of frames, each a batch of events with its clock reading. */
  function Run(s: Session, frames: seq<(seq<Event>, int)>): Session
    requires SessionValid(s)
    decreases |frames|
  {
    if frames == [] then s
    else
      var f := Frame(s, frames[0].0, frames[0].1);
      FramePreservesValid(s, frames[0].0, frames[0].1);
      if f.quit then f.session else Run(f.session, frames[1..])
  }
}
