# Math Rush — a Dafny model of the quiz logic

Math Rush is a JavaFX arithmetic quiz. The player gets three lives and ten seconds per
question, and picks one of four buttons. A correct answer scores ten points. A wrong answer
or a timeout costs a life, and the game ends when no life is left. This project models the
two pieces of game logic under the widgets and proves properties about them.

- `math_question.dfy` (module `MathQuestions`) models `MathQuestion`.
  - The question is an immutable datatype; its two destructors are the getters.
  - `generateRandom` is a pure function of its three `nextInt` draws.
  - A reader of the model's own reads the displayed text back: it cuts the text at spaces and
    parses the pieces. The Java code never parses its question text. Java integer evaluation
    of what the reader returns gives the value, so the text can be compared with the stored
    answer.
- `decimal.dfy` (module `Decimal`) models how Java prints an `int` and how `Integer.parseInt`
  reads it back.
- `answer_options.dfy` (module `AnswerOptions`) models the options of `generateAnswerOptions`:
  - the random offset `(int)(Math.random() * 10 - 5)`;
  - the rejection loop that collects four distinct options;
  - `Collections.shuffle` as the JDK's swap loop.

  The loop and the shuffle are methods, each proved equal to a function. The lemmas about
  those functions prove the shape of the options: four distinct values, the correct answer
  exactly once, and all of them within [correct - 5, correct + 4].
- `option_buttons.dfy` (module `OptionButtons`) models the `optionButtons` list as a sequence
  of buttons. Each button has its text, its colour style and its disabled flag.
  - `createOptionsBox` appends four new blank buttons, and the screen shows the last four.
  - `generateAnswerOptions` writes the options on the first four buttons of the list.
  - A click disables every button, and `Integer.parseInt` reads a button's text back.
  - Loops that walk the list are methods, each proved equal to a function on the list.
- `quiz_game.dfy` (module `Quiz`) models the game session as the class `QuizGame`.
  - Its fields are lives, score, the countdown, the current question, the button list, the
    feedback message and the game-over phase.
  - `pendingNext` counts the delayed loads that `scheduleNextQuestion` has queued.
  - Its methods update these fields as the Java methods do.
  - `Valid()` is the invariant they keep. Lives are at most 3, and the game is over exactly
    when lives are at most 0. The score is a non-negative multiple of 10. A running countdown
    is between 1 and 10. The list comes in groups of four buttons. Its first four buttons show
    four well-formed options, and every later button is blank.

Random input is a parameter everywhere. `Draws` carries everything one `loadNewQuestion`
consumes:

- the three `nextInt` results of `generateRandom`;
- the offsets of the option loop, in the order they are drawn;
- the indices `Collections.shuffle` draws.

A `Math.random()` value is modelled as an exact fraction `u / scale`.

## Model

| member | source | states |
|---|---|---|
| MathQuestions.GenerateRandom | src/main/java/com/example/mathrush/MathQuestion.java:22-54 | for draws `nextInt(10)`, `nextInt(10)`, `nextInt(4)` the answer lies in [-9, 100] |
| MathQuestions.QuestionEndsWithPrompt | src/main/java/com/example/mathrush/MathQuestion.java:53 | every question text, in every branch including `default`, ends with ` = ?` |
| MathQuestions.AdditionQuestion | src/main/java/com/example/mathrush/MathQuestion.java:31-34 | op 0 displays exactly `a + b = ?`, and that expression evaluates to the stored answer `a + b` |
| MathQuestions.SubtractionQuestion | src/main/java/com/example/mathrush/MathQuestion.java:35-38 | op 1 displays `a - b = ?` with the answer `a - b`: no operand swap, the answer is in [-9, 9] and is negative exactly when `a < b` |
| MathQuestions.MultiplicationQuestion | src/main/java/com/example/mathrush/MathQuestion.java:39-42 | op 2 displays `a * b = ?` and its answer, the product, lies in [1, 100] |
| MathQuestions.DivisionQuestion | src/main/java/com/example/mathrush/MathQuestion.java:43-47 | op 3 displays `prod / b = ?` with `prod = a*b`: `prod % b == 0`, `prod / b` is the answer and the answer is `a` |
| MathQuestions.GeneratedTextDenotesAnswer | src/main/java/com/example/mathrush/MathQuestion.java:22-54 | for all draws the displayed text parses, and evaluating it with Java's `int` operators gives the stored answer |
| MathQuestions.DefaultQuestion | src/main/java/com/example/mathrush/MathQuestion.java:48-51 | an operation code outside 0..3 gives the text `0 + 0 = ?` with answer 0 |
| MathQuestions.DefaultBranchUnreachable | src/main/java/com/example/mathrush/MathQuestion.java:24-26 | with operands in [1, 10] and op in [0, 3], every question shows one of `+ - * /` and a left operand of at least 1, so it is never the `default` fallback |
| MathQuestions.ParseRendered | src/main/java/com/example/mathrush/MathQuestion.java:32 | a text built as `x + " <sym> " + y + " = ?"` parses back to exactly `x`, the symbol and `y` |
| Decimal.IntToStringRoundTrip | src/main/java/com/example/mathrush/QuizGame.java:544 | the text `String.valueOf(n)` written on a button is non-empty and has no space, and `Integer.parseInt` reads it back as `n` |
| Decimal.ParseNatToString | src/main/java/com/example/mathrush/QuizGame.java:561 | parsing the digits of a natural number gives that number back |
| AnswerOptions.FakeOffsetRange | src/main/java/com/example/mathrush/QuizGame.java:531 | `(int)(Math.random() * 10 - 5)` lies in [-5, 4]; -5 happens only when `Math.random()` returns 0, because the cast truncates toward zero |
| AnswerOptions.FakeOffsetCovers | src/main/java/com/example/mathrush/QuizGame.java:531 | every offset in [-5, 4] is produced by some `Math.random()` value |
| AnswerOptions.StepKeepsShape | src/main/java/com/example/mathrush/QuizGame.java:531-534 | one loop iteration keeps the list distinct, keeps the correct answer, stays in the window and grows by at most one |
| AnswerOptions.StepValues | src/main/java/com/example/mathrush/QuizGame.java:531-534 | one loop iteration adds the proposed value to the set of values held and keeps the list free of duplicates |
| AnswerOptions.CollectKeepsShape | src/main/java/com/example/mathrush/QuizGame.java:527-535 | for any offsets in [-5, 4], the loop's list stays distinct, holds the correct answer, has at most 4 entries, lies within [correct - 5, correct + 4] and extends its start |
| AnswerOptions.CollectCount | src/main/java/com/example/mathrush/QuizGame.java:530-535 | the loop collects as many options as there are distinct values among the start list and the proposed values, capped at 4 |
| AnswerOptions.LoopEndsIffThreeNewValues | src/main/java/com/example/mathrush/QuizGame.java:530 | the `while (options.size() < 4)` loop finishes within the drawn offsets exactly when they propose at least three distinct values other than the correct answer |
| AnswerOptions.BuildOptions | src/main/java/com/example/mathrush/QuizGame.java:527-535 | the loop returns the list `Collect` defines: 4 distinct options, the correct answer first, all within [correct - 5, correct + 4] |
| AnswerOptions.Swap | src/main/java/com/example/mathrush/QuizGame.java:537 | a swap of two positions keeps the length and the multiset |
| AnswerOptions.ShuffledPermutes | src/main/java/com/example/mathrush/QuizGame.java:537 | `Collections.shuffle` only reorders: same length, same multiset, and a list without duplicates stays without duplicates |
| AnswerOptions.Shuffle | src/main/java/com/example/mathrush/QuizGame.java:537 | the in-place swap loop computes `Shuffled`, the reordering `ShuffledPermutes` describes |
| AnswerOptions.PermutedOptionsWellFormed | src/main/java/com/example/mathrush/QuizGame.java:537 | a reordering with no repeated value of a well-formed list is itself well formed |
| AnswerOptions.BuiltOptionsWellFormed | src/main/java/com/example/mathrush/QuizGame.java:527-537 | the shuffled list has 4 distinct values, contains the correct answer exactly once, stays in the window and has the same multiset as the built list |
| AnswerOptions.OptionsForWellFormed | src/main/java/com/example/mathrush/QuizGame.java:525-549 | the options put on the four buttons are well formed and are a permutation of the list the loop built |
| AnswerOptions.FourOptionsMeaning | src/main/java/com/example/mathrush/QuizGame.java:542-544 | the quantifier-free four-button form is equivalent, in both directions, to the well-formedness of the options |
| AnswerOptions.OptionsForFour | src/main/java/com/example/mathrush/QuizGame.java:542-544 | the four buttons receive pairwise different numbers, one of them the correct answer, all near it |
| AnswerOptions.GenerateOptions | src/main/java/com/example/mathrush/QuizGame.java:527-537 | building and then shuffling yields exactly `OptionsFor` of the draws |
| AnswerOptions.DistinctOnce | src/main/java/com/example/mathrush/QuizGame.java:532 | in a list without duplicates every member occurs exactly once |
| Quiz.QuizGame.constructor | src/main/java/com/example/mathrush/QuizGame.java:80-109 | a new game has 3 lives and score 0 and is playing; its list holds exactly the four buttons `createOptionsBox` made, showing the well-formed options of the first question, normal and enabled; a 10-second countdown runs |
| Quiz.QuizGame.SetupGameVariables | src/main/java/com/example/mathrush/QuizGame.java:116-119 | lives become 3 and the score 0 |
| Quiz.QuizGame.IncreaseScore | src/main/java/com/example/mathrush/QuizGame.java:430-433 | the score grows by exactly 10 and nothing else changes |
| Quiz.QuizGame.EndGame | src/main/java/com/example/mathrush/QuizGame.java:435-451 | the countdown stops and the game-over screen is shown |
| Quiz.QuizGame.DecreaseLife | src/main/java/com/example/mathrush/QuizGame.java:421-428 | lives drop by exactly 1; the game ends when they reach 0 or less, and otherwise phase and timer are unchanged |
| Quiz.QuizGame.ResetGame | src/main/java/com/example/mathrush/QuizGame.java:495-512 | from the game-over screen: 3 lives, score 0, playing again with a new question and a fresh countdown; already scheduled loads are not cancelled. The list grows by four blank buttons, the options go onto its first four buttons, and the four buttons on screen are the new blank ones |
| Quiz.QuizGame.LoadNewQuestion | src/main/java/com/example/mathrush/QuizGame.java:514-523 | new question from the draws, blank feedback, the well-formed options written on the first four buttons, the rest of the list untouched, countdown restarted at 10 with 11 cycles; lives and score untouched |
| Quiz.QuizGame.GenerateAnswerOptions | src/main/java/com/example/mathrush/QuizGame.java:525-550 | the first four buttons show `OptionsFor` the current answer and draws, in list order, normal and enabled; later buttons are left as they were |
| Quiz.QuizGame.StartTimer | src/main/java/com/example/mathrush/QuizGame.java:370-397 | the countdown restarts at `INITIAL_TIME` = 10 with cycle count 11 and runs |
| Quiz.QuizGame.Tick | src/main/java/com/example/mathrush/QuizGame.java:382-392 | a tick takes one second off; above one second nothing else changes; the tick reaching 0 stops the timer and times out (one life less, time-up message, next question scheduled); the invariant is kept |
| Quiz.QuizGame.HandleTimeOut | src/main/java/com/example/mathrush/QuizGame.java:413-419 | a timeout shows the time-up message, costs one life like a wrong answer, and schedules the next question whatever the lives |
| Quiz.QuizGame.HandleAnswer | src/main/java/com/example/mathrush/QuizGame.java:552-570 | a click on one of the four buttons on screen stops the countdown and disables every button. On a numbered button a correct pick adds 10 with lives unchanged and turns it green. A wrong pick costs one life with the score unchanged, turns it red and the correct button green, and the game ends exactly when lives reach 0. The next question is scheduled only if lives remain. On a blank button `Integer.parseInt` fails and nothing else changes. The invariant is kept |
| Quiz.QuizGame.UpdateFeedbackForAnswer | src/main/java/com/example/mathrush/QuizGame.java:572-587 | correct: message, chosen button green, +10. Wrong: message with the correct answer, chosen button red, the correct button green, one life less; the game ends when lives reach 0 |
| Quiz.QuizGame.HighlightCorrectAnswer | src/main/java/com/example/mathrush/QuizGame.java:589-596 | exactly the button at the position of the correct answer turns green, and every other button is unchanged |
| Quiz.QuizGame.RunScheduledQuestion | src/main/java/com/example/mathrush/QuizGame.java:598-601 | a queued delayed load runs `loadNewQuestion`, with lives, score and phase unchanged, even after game over; the options go onto the first four buttons |
| Quiz.QuizGame.PlayTimeline | src/main/java/com/example/mathrush/QuizGame.java:381-396 | an unanswered countdown times out after exactly as many ticks as there were seconds left (10 for a fresh question), before its 11 cycles run out, costing one life |
| Quiz.TimeoutsAfterGameOver | src/main/java/com/example/mathrush/QuizGame.java:413-419 | with no answers, three timeouts bring lives to 0 and end the game; the load the last one scheduled still runs, and its timeout takes lives to -1 |
| OptionButtons.Disabled | src/main/java/com/example/mathrush/QuizGame.java:559 | disabling keeps the length and changes every button only in its disabled flag, which becomes set |
| OptionButtons.CorrectIndex | src/main/java/com/example/mathrush/QuizGame.java:589-596 | among four well-formed options the correct answer stands at exactly one position |
| OptionButtons.ParseButton | src/main/java/com/example/mathrush/QuizGame.java:561 | when the first four buttons show the options and the rest are blank, `Integer.parseInt` gives the option of a button among the first four and fails on any later button |
| OptionButtons.ReadButton | src/main/java/com/example/mathrush/QuizGame.java:561 | reading the clicked button gives its option for one of the first four and no number for a later, blank, one |
| OptionButtons.LabelledShows | src/main/java/com/example/mathrush/QuizGame.java:542-549 | writing the options changes only the first four buttons, which then show the options in order, normal and enabled; blank later buttons stay blank |
| OptionButtons.LabelledMissesShown | src/main/java/com/example/mathrush/QuizGame.java:542-549 | once the list holds eight or more buttons, writing the options leaves the four buttons on screen as they were |
| OptionButtons.DisabledKeepsLabels | src/main/java/com/example/mathrush/QuizGame.java:559 | disabling keeps every text and style, so the list shows the same options and stays in the same shape |
| OptionButtons.RestyledKeepsLabels | src/main/java/com/example/mathrush/QuizGame.java:572-596 | restyling a button changes its style only, and leaves every other button and every text as it was |
| OptionButtons.AppendedAreShown | src/main/java/com/example/mathrush/QuizGame.java:274-284 | after four new blank buttons are appended, they are the four on screen, and the list stays in groups of four with blank buttons after the first four |
| OptionButtons.RestartLeavesShownBlank | src/main/java/com/example/mathrush/QuizGame.java:495-512 | appending four buttons and then writing the options grows the list by four and leaves the buttons on screen blank |
| OptionButtons.WriteOptions | src/main/java/com/example/mathrush/QuizGame.java:542-549 | the loop `for (int i = 0; i < 4; i++)` computes `Labelled`: the options on the first four buttons, the rest untouched |
| OptionButtons.DisableAll | src/main/java/com/example/mathrush/QuizGame.java:559 | `forEach(button -> button.setDisable(true))` computes `Disabled` |
| OptionButtons.HighlightCorrect | src/main/java/com/example/mathrush/QuizGame.java:589-596 | the loop stops at the first button whose text parses to the correct answer, which is among the first four, and turns exactly that button green |
| Quiz.QuizGame.CreateOptionsBox | src/main/java/com/example/mathrush/QuizGame.java:261-289 | four new blank, normal, enabled buttons are appended to the list and become the four on screen |
| Quiz.QuizGame.DisableButtons | src/main/java/com/example/mathrush/QuizGame.java:559 | every button is disabled and the list keeps its texts, styles and shape |
| Quiz.QuizGame.RestartWithFreshButtons | src/main/java/com/example/mathrush/QuizGame.java:495-512 | the corrected restart empties the list before rebuilding the screen; the four buttons on screen are then exactly the ones showing the new options |
| Quiz.ClickAfterRestart | src/main/java/com/example/mathrush/QuizGame.java:495-561 | three timeouts end the game; after a restart, clicking the first button on screen gives a blank text that does not parse; score, lives and feedback stay as the restart left them, the countdown is stopped, and only the load queued by the last timeout is pending |
| Quiz.ClickAfterFixedRestart | src/main/java/com/example/mathrush/QuizGame.java:495-561 | the same session with the corrected restart: the clicked button shows a number, the click scores 10 or costs one life, and a second load is queued |

## Left out

- Widgets, layout, colours, fonts, hover effects, `updateTimerAppearance` and `toRgbString`
  (floating-point colour conversion) are presentation only. Buttons keep only their text,
  style and enabled state, and `endGame` is a phase change. The rows and boxes that
  `createOptionsBox` lays the buttons out in are not modelled; the buttons on screen are
  the last four of the list.
- `Main.java` and `HelloController.java` are not part of this model.
- Real time and concurrency are not modelled.
  - The `Timeline` is one `Tick` call per second.
  - `scheduleNextQuestion` increments the counter `pendingNext`.
  - `RunScheduledQuestion` plays the delayed `Platform.runLater(this::loadNewQuestion)`, at
    any point the caller chooses.
  - The 1500 ms delay and `shutdown` are not modelled.
- `java.util.Random`, `Math.random()` and `Collections.shuffle`'s random source are not
  modelled as generators: the values they return are parameters.
- `MathQuestion.resetCounter()`, which `resetGame` calls at QuizGame.java:501, is not defined
  in `MathQuestion.java`, so `ResetGame` does nothing in its place.
- `MathQuestion.java` has no difficulty tiers and no operand swap in subtraction. It prints
  `*` and `/`. The model has operands in [1, 10], `a - b` possibly negative, and the symbols
  `* /`.
- `decreaseLife` has no floor, and a timeout schedules the next question even after game
  over, so lives can fall below 0 (`TimeoutsAfterGameOver`).
- `Decimal.ParseInt` follows `Integer.parseInt` on an optional sign and decimal digits. It has
  no 32-bit range check, since buttons only ever hold `String.valueOf` of an `int` or the
  empty text.
- Java's 32-bit `int` wrap-around is not modelled. Question answers and options stay within
  [-14, 104]. The score grows by 10 per correct answer without bound, and lives fall without
  bound through timeouts after game over, so both could wrap in Java; the model uses
  unbounded integers for them.
- AnswerOptions.FakeOffset: `Math.random() * 10 - 5` is computed on the exact fraction
  `u / scale`. The rounding of `double` arithmetic near the points where the truncated
  value changes is not modelled. The range [-5, 4] is proved for the exact value.
- BuildOptions: the source's `while (options.size() < 4)` loop draws offsets without bound.
  The model takes a finite sequence of offsets, and its precondition requires them to
  propose three new values (`LoopEndsIffThreeNewValues` shows exactly when that holds).
  Draws that never finish the loop are not modelled.
- HandleAnswer: a click is only modelled on one of the four buttons on screen, while the
  question screen is shown and that button is enabled. After game over the buttons are no
  longer on screen.
- The `NumberFormatException` that a blank button makes `Integer.parseInt` throw is not
  modelled as an exception. `HandleAnswer` stops at that point, as the JavaFX event handler
  does, and leaves the state as it was after the buttons were disabled.
- The option-button invariant is kept in the quantifier-free form `FourOptions`.
  `AnswerOptions.FourOptionsMeaning` proves it equivalent to `WellFormedOptions`.

## Findings

| source | as written | input that shows it | evidently intended | confidence | as-written member | corrected member |
|---|---|---|---|---|---|---|
| src/main/java/com/example/mathrush/QuizGame.java:495-512 | `resetGame` rebuilds the question screen, and `createOptionsBox` appends four new buttons to the same `optionButtons` list. `generateAnswerOptions` then writes the options on `optionButtons.get(0..3)`, which are the old buttons and no longer on screen. The four buttons on screen stay blank, and a click on one makes `Integer.parseInt("")` throw after the countdown was stopped and all buttons disabled | no answer for three questions (three timeouts end the game), then the restart button, then a click on any option button | after a restart the buttons on screen show the options of the new question, for example by clearing `optionButtons` before the screen is rebuilt | not executed | Quiz.ClickAfterRestart | Quiz.QuizGame.RestartWithFreshButtons |
