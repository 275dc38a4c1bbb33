/**
 * The application shell: which screen is shown (menu, the game while playing
 * or paused, the game-over screen), the score of the current run and the best
 * score so far. It mounts a fresh game for every run and forwards the game's
 * score updates and its game-over signal.
 */
module SnakeApp {
  import opened SnakeRules
  import opened SnakeEngine

  datatype Screen = Menu | Playing | Paused | GameOverScreen

  datatype Option<T> = None | Some(value: T)

  predicate ShowsMenu(s: Screen) { s == Menu }

  /** The game component is mounted while playing and while paused. */
  predicate ShowsGame(s: Screen) { s == Playing || s == Paused }

  predicate ShowsGameOver(s: Screen) { s == GameOverScreen }

  /** Every screen shows exactly one of the three views. */
  lemma ViewsPartitionScreens(s: Screen)
    ensures ShowsMenu(s) || ShowsGame(s) || ShowsGameOver(s)
    ensures !(ShowsMenu(s) && ShowsGame(s)) && !(ShowsMenu(s) && ShowsGameOver(s))
    ensures !(ShowsGame(s) && ShowsGameOver(s))
  {
  }

  /** The best score after a run ending with `finalScore`. */
  function NewHighScore(highScore: int, finalScore: int): (r: int)
    ensures r >= highScore && r >= finalScore
    ensures r == highScore || r == finalScore
  {
    if finalScore > highScore then finalScore else highScore
  }

  /** The best score after runs ending with the scores `finals`, in order. */
  function HighScoreAfterRuns(highScore: int, finals: seq<int>): int {
    if finals == [] then highScore
    else NewHighScore(HighScoreAfterRuns(highScore, finals[..|finals| - 1]), finals[|finals| - 1])
  }

  /** The best score is the largest of the stored one and every final score since. */
  lemma {:induction false} HighScoreIsBestOfRuns(highScore: int, finals: seq<int>)
    ensures HighScoreAfterRuns(highScore, finals) >= highScore
    ensures forall i :: 0 <= i < |finals| ==> HighScoreAfterRuns(highScore, finals) >= finals[i]
    ensures HighScoreAfterRuns(highScore, finals) == highScore ||
            HighScoreAfterRuns(highScore, finals) in finals
  {
    if finals != [] {
      var init := finals[..|finals| - 1];
      HighScoreIsBestOfRuns(highScore, init);
      assert finals == init + [finals[|finals| - 1]];
    }
  }

  class App {
    var gameState: Screen
    var score: int
    var highScore: int
    /** The game component of the current (or last) run. */
    var game: Engine

    ghost predicate Valid()
      reads this, game
    {
      game.Valid() && (gameState == GameOverScreen ==> score <= highScore)
    }

    /** The `isPaused` flag the game component receives. */
    function IsPaused(): bool
      reads this
    {
      gameState == Paused
    }

    /** Start-up: the menu, with the stored best score or 0 when none is stored. */
    constructor (stored: Option<int>)
      ensures Valid() && fresh(game)
      ensures gameState == Menu && score == 0
      ensures highScore == if stored.Some? then stored.value else 0
    {
      gameState := Menu;
      score := 0;
      highScore := if stored.Some? then stored.value else 0;
      game := new Engine();
    }

    /** A new run from the menu or the game-over screen: a fresh game, score 0. */
    method StartGame()
      requires Valid() && !ShowsGame(gameState)
      modifies this
      ensures Valid() && fresh(game)
      ensures game.Snapshot() == Initial && game.lastRenderTime == 0
      ensures score == 0 && gameState == Playing && highScore == old(highScore)
    {
      score := 0;
      gameState := Playing;
      game := new Engine();
    }

    /** The game's report of a fatal collision. */
    method HandleGameOver(finalScore: int)
      requires Valid() && ShowsGame(gameState)
      modifies this
      ensures Valid() && game == old(game)
      ensures score == finalScore && gameState == GameOverScreen
      ensures highScore == NewHighScore(old(highScore), finalScore)
    {
      score := finalScore;
      if finalScore > highScore {
        highScore := finalScore;
      }
      gameState := GameOverScreen;
    }

    /** The game's score update after a tick. */
    method SetScore(newScore: int)
      requires Valid() && ShowsGame(gameState)
      modifies this`score
      ensures Valid() && score == newScore
    {
      score := newScore;
    }

    method Pause()
      requires Valid() && ShowsGame(gameState)
      modifies this`gameState
      ensures Valid() && gameState == Paused && IsPaused()
    {
      gameState := Paused;
    }

    method Resume()
      requires Valid() && ShowsGame(gameState)
      modifies this`gameState
      ensures Valid() && gameState == Playing && !IsPaused()
    {
      gameState := Playing;
    }

    /** A key press while the game is shown: arrows steer, space toggles the pause. */
    method KeyPress(key: Key)
      requires Valid() && ShowsGame(gameState)
      modifies this, game
      ensures Valid() && game == old(game)
      ensures game.direction ==
        if key.Arrow? then Steer(old(game.direction), key.dir) else old(game.direction)
      ensures gameState ==
        if key != Space then old(gameState)
        else if old(gameState) == Paused then Playing else Paused
      ensures game.Snapshot() == old(game.Snapshot()).(direction := game.direction)
      ensures game.lastRenderTime == old(game.lastRenderTime)
      ensures score == old(score) && highScore == old(highScore)
    {
      var command := game.HandleKey(key, IsPaused());
      match command
      case PauseCommand => Pause();
      case ResumeCommand => Resume();
      case NoCommand =>
    }

    /**
     * One animation frame while the game is shown. While playing, a frame that
     * is due performs one tick: a tick that survives passes its score on, a
     * fatal one ends the run with the score it had. A frame that is not due,
     * or any frame while paused, changes nothing. Neither the score of the run
     * nor the best score ever goes down, and the best score changes only when
     * a run ends.
     */
    method AnimationFrame(timestamp: int, dice: Dice)
      requires Valid() && ShowsGame(gameState) && dice.Valid()
      modifies this, game
      ensures Valid() && game == old(game)
      ensures old(gameState) == Playing && TickDue(old(game.lastRenderTime), timestamp, old(game.speed)) ==>
        var r := Step(old(game.Snapshot()), old(score), dice);
        && game.Snapshot() == r.state
        && game.lastRenderTime == timestamp
        && (r.outcome.Continue? ==> score == r.outcome.score && gameState == Playing)
        && (r.outcome.GameOver? ==> gameState == GameOverScreen)
      ensures old(gameState) == Paused || !TickDue(old(game.lastRenderTime), timestamp, old(game.speed)) ==>
        && gameState == old(gameState) && score == old(score)
        && game.Snapshot() == old(game.Snapshot()) && game.lastRenderTime == old(game.lastRenderTime)
      ensures score >= old(score) && highScore >= old(highScore)
      ensures gameState != GameOverScreen ==> highScore == old(highScore)
      ensures gameState == GameOverScreen ==>
        score == old(score) && highScore == NewHighScore(old(highScore), old(score))
    {
      ScoreNeverDecreases(game.Snapshot(), score, dice);
      var result := game.Frame(timestamp, IsPaused(), score, dice);
      match result
      case Waiting =>
      case Ticked(Continue(newScore)) => SetScore(newScore);
      case Ticked(GameOver(finalScore)) => HandleGameOver(finalScore);
    }
  }
}
