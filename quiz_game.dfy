/**
 * The game-session logic of `QuizGame.java`: lives, score, the current question, the
 * per-question countdown and the list of option buttons, as a class whose methods update
 * those fields the way the Java methods do. Widgets are reduced to what the logic reads
 * back: the text on each button, its highlight, whether it is disabled, the feedback
 * message and whether the game-over screen is shown.
 */
module Quiz {
  import opened Wrappers
  import opened Decimal
  import opened MathQuestions
  import opened AnswerOptions
  import opened OptionButtons

  const InitialLives := 3
  /** `INITIAL_TIME`: seconds per question. */
  const InitialTime := 10
  const PointsPerAnswer := 10

  /** `Playing` while the question screen is shown, `Ended` once `endGame` replaced it. */
  datatype Phase = Playing | Ended

  /** The text of the feedback label. */
  datatype Feedback = Blank | Correct | Incorrect(correctAnswer: int) | TimeUp

  /**
   * The random input one `loadNewQuestion` consumes: the three `nextInt` draws of
   * `generateRandom`, the offsets the option loop draws in order, and the indices
   * `Collections.shuffle` draws.
   */
  datatype Draws = Draws(ra: int, rb: int, rop: int, offsets: seq<int>, shuffle: seq<int>)

  predicate ValidDraws(d: Draws) {
    0 <= d.ra < 10 && 0 <= d.rb < 10 && 0 <= d.rop < 4
    && OptionDraws(GenerateRandom(d.ra, d.rb, d.rop).correctAnswer, d.offsets, d.shuffle)
  }

  class QuizGame {
    var currentQuestion: MathQuestion
    var timeRemaining: int
    var lives: int
    var score: int
    /** Whether the countdown `Timeline` is playing. */
    var timerRunning: bool
    /** Cycles the `Timeline` has left of its cycle count `INITIAL_TIME + 1`. */
    var cyclesLeft: int
    /** `optionButtons`: every option button created so far, in creation order. */
    var optionButtons: seq<Button>
    /** The list the latest `generateAnswerOptions` built and wrote on the first four buttons. */
    ghost var options: seq<int>
    var feedback: Feedback
    var phase: Phase
    /** Calls of `loadNewQuestion` scheduled by `scheduleNextQuestion` that have not run yet. */
    var pendingNext: nat

    /**
     * Lives never exceed three and the game-over screen is shown exactly when they are
     * used up; the score is a non-negative multiple of ten; a playing countdown is between
     * 1 and 10 and its timeline always has a cycle left for the next tick.
     */
    ghost predicate StateValid()
      reads this
    {
      lives <= InitialLives && (phase == Ended <==> lives <= 0)
      && score >= 0 && score % PointsPerAnswer == 0
      && 0 <= timeRemaining <= InitialTime
      && (timerRunning ==> 1 <= timeRemaining && cyclesLeft == timeRemaining + 1)
    }

    /** The session invariant, with the first four buttons showing four well-formed options. */
    ghost predicate Valid()
      reads this
    {
      StateValid() && Ready(optionButtons)
      && FourOptions(options, currentQuestion.correctAnswer) && ShowsOptions(optionButtons, options)
    }

    /** `new QuizGame()`: set up lives and score, create the four buttons, then load the first question. */
    constructor (d: Draws)
      requires ValidDraws(d)
      ensures Valid()
      ensures lives == InitialLives && score == 0 && phase == Playing && pendingNext == 0
      ensures currentQuestion == GenerateRandom(d.ra, d.rb, d.rop) && feedback == Blank
      ensures options == OptionsFor(currentQuestion.correctAnswer, d.offsets, d.shuffle)
      ensures optionButtons == Labelled(NewButtons, options)
      ensures timerRunning && timeRemaining == InitialTime
    {
      currentQuestion := MathQuestion("", 0);
      timeRemaining, lives, score := 0, 0, 0;
      timerRunning, cyclesLeft := false, 0;
      optionButtons, options := [], [];
      feedback, phase, pendingNext := Blank, Playing, 0;
      new;
      SetupGameVariables();
      CreateOptionsBox();
      assert StateValid() && lives == InitialLives && score == 0 && phase == Playing && pendingNext == 0;
      LoadNewQuestion(d);
    }

    method SetupGameVariables()
      modifies this`lives, this`score
      ensures lives == InitialLives && score == 0
    {
      lives := InitialLives;
      score := 0;
    }

    /** The loop of `createOptionsBox`: four new blank buttons are appended to `optionButtons`. */
    method CreateOptionsBox()
      requires |optionButtons| == 0 || Ready(optionButtons)
      modifies this`optionButtons
      ensures optionButtons == old(optionButtons) + NewButtons
      ensures |optionButtons| == |old(optionButtons)| + OptionCount && Shown(optionButtons) == NewButtons
      ensures Ready(optionButtons)
    {
      for i := 0 to OptionCount
        invariant optionButtons == old(optionButtons) + NewButtons[..i]
      {
        optionButtons := optionButtons + [NewButton];
      }
      AppendedAreShown(old(optionButtons));
    }

    method IncreaseScore()
      modifies this`score
      ensures score == old(score) + PointsPerAnswer
      ensures old(score) % PointsPerAnswer == 0 ==> score % PointsPerAnswer == 0
    {
      score := score + PointsPerAnswer;
      assert score % PointsPerAnswer == (old(score) + PointsPerAnswer) % PointsPerAnswer;
    }

    /** Stops the countdown and shows the game-over screen. */
    method EndGame()
      modifies this`phase, this`timerRunning
      ensures phase == Ended && !timerRunning
    {
      timerRunning := false;
      phase := Ended;
    }

    /** One life less; the game ends exactly when none is left. */
    method DecreaseLife()
      modifies this`lives, this`phase, this`timerRunning
      ensures lives == old(lives) - 1
      ensures lives <= 0 ==> phase == Ended && !timerRunning
      ensures lives > 0 ==> phase == old(phase) && timerRunning == old(timerRunning)
    {
      lives := lives - 1;
      if lives <= 0 {
        EndGame();
      }
    }

    /**
     * The restart button of the game-over screen: three lives, no score, a rebuilt
     * question screen and a new question. Rebuilding appends four new buttons, which are
     * the ones on screen and stay blank, because the options are written on the first
     * four. Loads scheduled earlier are not cancelled.
     */
    method ResetGame(d: Draws)
      requires Valid() && phase == Ended && ValidDraws(d)
      modifies this
      ensures Valid()
      ensures lives == InitialLives && score == 0 && phase == Playing && pendingNext == old(pendingNext)
      ensures currentQuestion == GenerateRandom(d.ra, d.rb, d.rop) && feedback == Blank
      ensures options == OptionsFor(currentQuestion.correctAnswer, d.offsets, d.shuffle)
      ensures optionButtons == Labelled(old(optionButtons) + NewButtons, options)
      ensures |optionButtons| == old(|optionButtons|) + OptionCount && Shown(optionButtons) == NewButtons
      ensures timerRunning && timeRemaining == InitialTime
    {
      lives := InitialLives;
      score := 0;
      CreateOptionsBox();
      phase := Playing;
      ghost var grown := optionButtons;
      assert StateValid() && lives == InitialLives && score == 0 && pendingNext == old(pendingNext);
      assert grown == old(optionButtons) + NewButtons;
      LoadNewQuestion(d);
      RestartLeavesShownBlank(old(optionButtons), options);
    }

    /**
     * A restart that replaces the button list instead of growing it (`optionButtons.clear()`
     * before the screen is rebuilt): the four buttons on screen are the ones that receive
     * the new options.
     */
    method RestartWithFreshButtons(d: Draws)
      requires Valid() && phase == Ended && ValidDraws(d)
      modifies this
      ensures Valid()
      ensures lives == InitialLives && score == 0 && phase == Playing && pendingNext == old(pendingNext)
      ensures currentQuestion == GenerateRandom(d.ra, d.rb, d.rop) && feedback == Blank
      ensures options == OptionsFor(currentQuestion.correctAnswer, d.offsets, d.shuffle)
      ensures optionButtons == Labelled(NewButtons, options) && Shown(optionButtons) == optionButtons
      ensures timerRunning && timeRemaining == InitialTime
    {
      lives := InitialLives;
      score := 0;
      optionButtons := [];
      CreateOptionsBox();
      phase := Playing;
      assert StateValid() && lives == InitialLives && score == 0 && pendingNext == old(pendingNext);
      assert optionButtons == NewButtons;
      LoadNewQuestion(d);
    }

    method LoadNewQuestion(d: Draws)
      requires StateValid() && Ready(optionButtons) && ValidDraws(d)
      modifies this`currentQuestion, this`feedback, this`options, this`optionButtons
      modifies this`timeRemaining, this`timerRunning, this`cyclesLeft
      ensures Valid()
      ensures currentQuestion == GenerateRandom(d.ra, d.rb, d.rop) && feedback == Blank
      ensures options == OptionsFor(currentQuestion.correctAnswer, d.offsets, d.shuffle)
      ensures optionButtons == Labelled(old(optionButtons), options)
      ensures timerRunning && timeRemaining == InitialTime && cyclesLeft == InitialTime + 1
    {
      currentQuestion := GenerateRandom(d.ra, d.rb, d.rop);
      feedback := Blank;
      GenerateAnswerOptions(d.offsets, d.shuffle);
      StartTimer();
    }

    /**
     * Builds and shuffles the options, then its loop writes them on `optionButtons.get(0..3)`,
     * in the normal style and enabled.
     */
    method GenerateAnswerOptions(offsets: seq<int>, shuffle: seq<int>)
      requires OptionDraws(currentQuestion.correctAnswer, offsets, shuffle)
      requires Ready(optionButtons)
      modifies this`options, this`optionButtons
      ensures options == OptionsFor(currentQuestion.correctAnswer, offsets, shuffle)
      ensures FourOptions(options, currentQuestion.correctAnswer)
      ensures optionButtons == Labelled(old(optionButtons), options)
      ensures ShowsOptions(optionButtons, options) && Ready(optionButtons)
    {
      var correct := currentQuestion.correctAnswer;
      var list := GenerateOptions(correct, offsets, shuffle);
      OptionsForFour(correct, offsets, shuffle);
      options := list;
      optionButtons := WriteOptions(optionButtons, list);
      LabelledShows(old(optionButtons), list);
    }

    /** Stops any running countdown and starts a new one at `INITIAL_TIME`. */
    method StartTimer()
      modifies this`timerRunning, this`timeRemaining, this`cyclesLeft
      ensures timerRunning && timeRemaining == InitialTime && cyclesLeft == InitialTime + 1
    {
      timerRunning := false;
      timeRemaining := InitialTime;
      cyclesLeft := InitialTime + 1;
      timerRunning := true;
    }

    /**
     * One cycle of the countdown `Timeline`: one second less; at zero the timer stops and
     * the question times out.
     */
    method Tick()
      requires Valid() && timerRunning
      modifies this`timeRemaining, this`cyclesLeft, this`timerRunning, this`lives, this`phase
      modifies this`feedback, this`pendingNext
      ensures Valid()
      ensures timeRemaining == old(timeRemaining) - 1
      ensures old(timeRemaining) > 1 ==>
        timerRunning && cyclesLeft == old(cyclesLeft) - 1 && lives == old(lives) && phase == old(phase)
        && feedback == old(feedback) && pendingNext == old(pendingNext)
      ensures old(timeRemaining) == 1 ==>
        !timerRunning && lives == old(lives) - 1 && feedback == TimeUp && pendingNext == old(pendingNext) + 1
    {
      cyclesLeft := cyclesLeft - 1;
      timeRemaining := timeRemaining - 1;
      if timeRemaining <= 0 {
        timerRunning := false;
        HandleTimeOut();
      }
    }

    /** The question is lost like a wrong answer, and the next one is scheduled whatever the lives. */
    method HandleTimeOut()
      modifies this`feedback, this`lives, this`phase, this`timerRunning, this`pendingNext
      ensures feedback == TimeUp && lives == old(lives) - 1 && pendingNext == old(pendingNext) + 1
      ensures lives <= 0 ==> phase == Ended && !timerRunning
      ensures lives > 0 ==> phase == old(phase) && timerRunning == old(timerRunning)
    {
      feedback := TimeUp;
      DecreaseLife();
      pendingNext := pendingNext + 1;
    }

    /**
     * A click on the on-screen button `choice`: stop the countdown, disable every button,
     * then read the button's number. A numbered button scores or costs a life, and the next
     * question is scheduled only if lives remain. A blank button makes `Integer.parseInt`
     * throw, so nothing after the disabling happens.
     */
    method HandleAnswer(choice: int)
      requires Valid() && phase == Playing
      requires |optionButtons| - OptionCount <= choice < |optionButtons| && !optionButtons[choice].disabled
      modifies this`timerRunning, this`optionButtons, this`feedback
      modifies this`score, this`lives, this`phase, this`pendingNext
      ensures Valid() && !timerRunning
      ensures choice >= OptionCount ==>
        optionButtons == Disabled(old(optionButtons)) && score == old(score) && lives == old(lives)
        && phase == old(phase) && feedback == old(feedback) && pendingNext == old(pendingNext)
      ensures choice < OptionCount && options[choice] == currentQuestion.correctAnswer ==>
        score == old(score) + PointsPerAnswer && lives == old(lives) && phase == Playing
        && feedback == Correct && pendingNext == old(pendingNext) + 1
        && optionButtons == Restyled(Disabled(old(optionButtons)), choice, CorrectStyle)
      ensures choice < OptionCount && options[choice] != currentQuestion.correctAnswer ==>
        score == old(score) && lives == old(lives) - 1 && lives >= 0
        && feedback == Incorrect(currentQuestion.correctAnswer)
        && (phase == Ended <==> lives == 0)
        && pendingNext == old(pendingNext) + (if lives > 0 then 1 else 0)
        && optionButtons == Restyled(Restyled(Disabled(old(optionButtons)), choice, IncorrectStyle),
                                     CorrectIndex(options, currentQuestion.correctAnswer), CorrectStyle)
    {
      timerRunning := false;
      DisableButtons();
      assert StateValid() && Ready(optionButtons) && ShowsOptions(optionButtons, options);
      var selected := ReadButton(optionButtons, options, choice);
      if selected.Some? {
        var isCorrect := selected.value == currentQuestion.correctAnswer;
        UpdateFeedbackForAnswer(isCorrect, choice);
        if lives > 0 {
          pendingNext := pendingNext + 1;
        }
      }
    }

    /** `optionButtons.forEach(button -> button.setDisable(true))`. */
    method DisableButtons()
      modifies this`optionButtons
      ensures optionButtons == Disabled(old(optionButtons))
      ensures |optionButtons| == old(|optionButtons|)
      ensures ShowsOptions(old(optionButtons), options) ==> ShowsOptions(optionButtons, options)
      ensures Ready(old(optionButtons)) ==> Ready(optionButtons)
    {
      optionButtons := DisableAll(optionButtons);
      DisabledKeepsLabels(old(optionButtons), options);
    }

    /**
     * Right: message, the chosen button green, ten points. Wrong: message with the correct
     * answer, the chosen button red, one life less, and the correct button green.
     */
    method UpdateFeedbackForAnswer(isCorrect: bool, selected: int)
      requires ShowsOptions(optionButtons, options) && Ready(optionButtons)
      requires FourOptions(options, currentQuestion.correctAnswer) && 0 <= selected < |optionButtons|
      requires StateValid() && phase == Playing
      modifies this`feedback, this`optionButtons, this`score, this`lives, this`phase, this`timerRunning
      ensures ShowsOptions(optionButtons, options) && Ready(optionButtons) && StateValid()
      ensures isCorrect ==>
        feedback == Correct && optionButtons == Restyled(old(optionButtons), selected, CorrectStyle)
        && score == old(score) + PointsPerAnswer && lives == old(lives)
        && phase == old(phase) && timerRunning == old(timerRunning)
      ensures !isCorrect ==>
        feedback == Incorrect(currentQuestion.correctAnswer) && score == old(score) && lives == old(lives) - 1
        && (lives <= 0 ==> phase == Ended && !timerRunning)
        && (lives > 0 ==> phase == old(phase) && timerRunning == old(timerRunning))
        && optionButtons == Restyled(Restyled(old(optionButtons), selected, IncorrectStyle),
                                     CorrectIndex(options, currentQuestion.correctAnswer), CorrectStyle)
    {
      if isCorrect {
        feedback := Correct;
        optionButtons := Restyled(optionButtons, selected, CorrectStyle);
        RestyledKeepsLabels(old(optionButtons), selected, CorrectStyle, options);
        IncreaseScore();
      } else {
        feedback := Incorrect(currentQuestion.correctAnswer);
        optionButtons := Restyled(optionButtons, selected, IncorrectStyle);
        RestyledKeepsLabels(old(optionButtons), selected, IncorrectStyle, options);
        DecreaseLife();
        HighlightCorrectAnswer();
      }
    }

    /** Colours the first button, in list order, whose number is the correct answer. */
    method HighlightCorrectAnswer()
      requires ShowsOptions(optionButtons, options) && Ready(optionButtons)
      requires FourOptions(options, currentQuestion.correctAnswer)
      modifies this`optionButtons
      ensures optionButtons == Restyled(old(optionButtons), CorrectIndex(options, currentQuestion.correctAnswer), CorrectStyle)
      ensures ShowsOptions(optionButtons, options) && Ready(optionButtons)
    {
      optionButtons := HighlightCorrect(optionButtons, options, currentQuestion.correctAnswer);
      RestyledKeepsLabels(old(optionButtons), CorrectIndex(options, currentQuestion.correctAnswer), CorrectStyle, options);
    }

    /** The delayed `loadNewQuestion` that `scheduleNextQuestion` queued runs. */
    method RunScheduledQuestion(d: Draws)
      requires Valid() && pendingNext > 0 && ValidDraws(d)
      modifies this
      ensures Valid()
      ensures pendingNext == old(pendingNext) - 1
      ensures lives == old(lives) && score == old(score) && phase == old(phase)
      ensures currentQuestion == GenerateRandom(d.ra, d.rb, d.rop) && feedback == Blank
      ensures options == OptionsFor(currentQuestion.correctAnswer, d.offsets, d.shuffle)
      ensures optionButtons == Labelled(old(optionButtons), options)
      ensures timerRunning && timeRemaining == InitialTime
    {
      pendingNext := pendingNext - 1;
      LoadNewQuestion(d);
    }

    /**
     * The countdown `Timeline` playing until it stops with no answer given: it times out on
     * the tick that brings the time to zero, before its cycle count runs out, and costs one life.
     */
    method PlayTimeline() returns (ticks: nat)
      requires Valid() && timerRunning
      modifies this`timeRemaining, this`cyclesLeft, this`timerRunning, this`lives, this`phase
      modifies this`feedback, this`pendingNext
      ensures Valid() && !timerRunning && timeRemaining == 0
      ensures ticks == old(timeRemaining) && ticks < old(cyclesLeft)
      ensures lives == old(lives) - 1 && feedback == TimeUp && pendingNext == old(pendingNext) + 1
      ensures phase == Ended <==> lives <= 0
    {
      ticks := 0;
      while timerRunning
        invariant Valid()
        invariant timeRemaining == old(timeRemaining) - ticks
        invariant timerRunning ==> lives == old(lives) && pendingNext == old(pendingNext)
        invariant timerRunning ==> cyclesLeft == old(cyclesLeft) - ticks
        invariant !timerRunning ==>
          timeRemaining == 0 && lives == old(lives) - 1 && feedback == TimeUp && pendingNext == old(pendingNext) + 1
        decreases timeRemaining + (if timerRunning then 1 else 0)
      {
        Tick();
        ticks := ticks + 1;
      }
    }
  }

  /**
   * With no answer ever given, three timeouts end the game; the load scheduled by the last
   * one still runs and restarts the countdown behind the game-over screen, and its timeout
   * takes the lives below zero.
   */
  method TimeoutsAfterGameOver(d: Draws) returns (livesAtGameOver: int, finalLives: int, finalPhase: Phase)
    requires ValidDraws(d)
    ensures livesAtGameOver == 0 && finalLives == -1 && finalPhase == Ended
  {
    var g := new QuizGame(d);
    var ticks := g.PlayTimeline();
    g.RunScheduledQuestion(d);
    ticks := g.PlayTimeline();
    g.RunScheduledQuestion(d);
    ticks := g.PlayTimeline();
    livesAtGameOver := g.lives;
    g.RunScheduledQuestion(d);
    ticks := g.PlayTimeline();
    finalLives, finalPhase := g.lives, g.phase;
  }

  /**
   * Three timeouts end the game; the player restarts and clicks the first button on screen.
   * `resetGame` appended four new buttons, but the options went onto the first four, so the
   * clicked button is blank: `Integer.parseInt` fails, the countdown is stopped and every
   * button is disabled, and no feedback, score, life or next question follows.
   */
  method ClickAfterRestart(d: Draws) returns (clicked: string, finalScore: int, finalLives: int, finalFeedback: Feedback, running: bool, queued: nat)
    requires ValidDraws(d)
    ensures clicked == "" && ParseInt(clicked) == None
    ensures finalScore == 0 && finalLives == InitialLives && finalFeedback == Blank && !running && queued == 1
  {
    var g := new QuizGame(d);
    var ticks := g.PlayTimeline();
    g.RunScheduledQuestion(d);
    ticks := g.PlayTimeline();
    g.RunScheduledQuestion(d);
    ticks := g.PlayTimeline();
    g.ResetGame(d);
    var choice := |g.optionButtons| - OptionCount;
    clicked := g.optionButtons[choice].text;
    g.HandleAnswer(choice);
    finalScore, finalLives, finalFeedback, running, queued := g.score, g.lives, g.feedback, g.timerRunning, g.pendingNext;
  }

  /**
   * The same session with the corrected restart: the first button on screen shows the first
   * option, so the click scores ten points or costs a life, and the next question is queued
   * behind the one the last timeout scheduled.
   */
  method ClickAfterFixedRestart(d: Draws) returns (clicked: string, finalScore: int, finalLives: int, finalFeedback: Feedback, running: bool, queued: nat)
    requires ValidDraws(d)
    ensures clicked != "" && ParseInt(clicked).Some?
    ensures (finalScore == PointsPerAnswer && finalLives == InitialLives && finalFeedback == Correct)
         || (finalScore == 0 && finalLives == InitialLives - 1 && finalFeedback.Incorrect?)
    ensures !running && queued == 2
  {
    var g := new QuizGame(d);
    var ticks := g.PlayTimeline();
    g.RunScheduledQuestion(d);
    ticks := g.PlayTimeline();
    g.RunScheduledQuestion(d);
    ticks := g.PlayTimeline();
    g.RestartWithFreshButtons(d);
    var choice := |g.optionButtons| - OptionCount;
    assert choice == 0 && g.lives == InitialLives && g.score == 0 && g.pendingNext == 1;
    clicked := g.optionButtons[choice].text;
    ParseButton(g.optionButtons, g.options, choice);
    g.HandleAnswer(choice);
    finalScore, finalLives, finalFeedback, running, queued := g.score, g.lives, g.feedback, g.timerRunning, g.pendingNext;
  }
}
