/**
 * The `optionButtons` list of `QuizGame.java` as the game logic sees it: each button's
 * text, colour style and disabled flag. `createOptionsBox` appends four new buttons to the
 * list, `generateAnswerOptions` writes numbers on the first four, a click disables them all,
 * and `handleAnswer` and `highlightCorrectAnswer` read a number back with `Integer.parseInt`.
 */
module OptionButtons {
  import opened Wrappers
  import opened Decimal
  import opened AnswerOptions

  /** The colour style of an option button. */
  datatype ButtonStyle = Normal | CorrectStyle | IncorrectStyle

  datatype Button = Button(text: string, style: ButtonStyle, disabled: bool)

  /** `createOptionButton()`: no text, the normal style, enabled. */
  const NewButton: Button := Button("", Normal, false)

  /** The four buttons one run of `createOptionsBox` appends. */
  const NewButtons: seq<Button> := [NewButton, NewButton, NewButton, NewButton]

  /** A button as `generateAnswerOptions` leaves it: showing `String.valueOf(n)`, normal style, enabled. */
  function OptionButton(n: int): Button {
    Button(IntToString(n), Normal, false)
  }

  /** The list after `generateAnswerOptions` wrote `opts` on `optionButtons.get(0..3)`; later buttons are untouched. */
  function Labelled(bs: seq<Button>, opts: seq<int>): seq<Button>
    requires |bs| >= OptionCount && |opts| == OptionCount
  {
    [OptionButton(opts[0]), OptionButton(opts[1]), OptionButton(opts[2]), OptionButton(opts[3])] + bs[OptionCount..]
  }

  /** The list after `optionButtons.forEach(button -> button.setDisable(true))`: the same buttons, each disabled. */
  function Disabled(bs: seq<Button>): (r: seq<Button>)
    ensures |r| == |bs|
    ensures forall k :: 0 <= k < |bs| ==> r[k] == bs[k].(disabled := true)
    decreases |bs|
  {
    if bs == [] then [] else Disabled(bs[..|bs| - 1]) + [bs[|bs| - 1].(disabled := true)]
  }

  /** `button.setStyle(...)` on button `k`. */
  function Restyled(bs: seq<Button>, k: int, style: ButtonStyle): seq<Button>
    requires 0 <= k < |bs|
  {
    bs[k := bs[k].(style := style)]
  }

  /** The first four buttons show the numbers of `opts`, in order. */
  predicate ShowsOptions(bs: seq<Button>, opts: seq<int>) {
    |bs| >= OptionCount && |opts| == OptionCount
    && bs[0].text == IntToString(opts[0]) && bs[1].text == IntToString(opts[1])
    && bs[2].text == IntToString(opts[2]) && bs[3].text == IntToString(opts[3])
  }

  /** No button after the first four has ever been given a text. */
  predicate BlankBeyondFour(bs: seq<Button>) {
    forall k :: OptionCount <= k < |bs| ==> bs[k].text == ""
  }

  /** The buttons on screen: the four that the latest `createOptionsBox` appended. */
  function Shown(bs: seq<Button>): seq<Button>
    requires |bs| >= OptionCount
  {
    bs[|bs| - OptionCount..]
  }

  /** The position of the correct answer among four well-formed options: the button `highlightCorrectAnswer` colours. */
  function CorrectIndex(opts: seq<int>, correct: int): (k: int)
    requires FourOptions(opts, correct)
    ensures 0 <= k < OptionCount && opts[k] == correct
    ensures forall j :: 0 <= j < OptionCount && opts[j] == correct ==> j == k
  {
    if opts[0] == correct then 0
    else if opts[1] == correct then 1
    else if opts[2] == correct then 2
    else 3
  }

  /**
   * What `Integer.parseInt(btn.getText())` gives for button `k`: the number written on it
   * for one of the first four, and `None`, where Java throws `NumberFormatException`, for
   * any later, blank, button.
   */
  lemma ParseButton(bs: seq<Button>, opts: seq<int>, k: int)
    requires ShowsOptions(bs, opts) && BlankBeyondFour(bs) && 0 <= k < |bs|
    ensures ParseInt(bs[k].text) == if k < OptionCount then Some(opts[k]) else None
  {
    if k < OptionCount {
      IntToStringRoundTrip(opts[k]);
    } else {
      assert bs[k].text == "";
    }
  }

  /**
   * Writing the options touches only the first four buttons: they show the options in
   * order, normal and enabled, and every later button is left as it was.
   */
  lemma LabelledShows(bs: seq<Button>, opts: seq<int>)
    requires |bs| >= OptionCount && |opts| == OptionCount
    ensures |Labelled(bs, opts)| == |bs| && ShowsOptions(Labelled(bs, opts), opts)
    ensures Labelled(bs, opts)[..OptionCount] == [OptionButton(opts[0]), OptionButton(opts[1]), OptionButton(opts[2]), OptionButton(opts[3])]
    ensures Labelled(bs, opts)[OptionCount..] == bs[OptionCount..]
    ensures BlankBeyondFour(bs) ==> BlankBeyondFour(Labelled(bs, opts))
    ensures Ready(bs) ==> Ready(Labelled(bs, opts))
  {
  }

  /**
   * Once the list holds more than four buttons, writing the options leaves the buttons on
   * screen as they were.
   */
  lemma LabelledMissesShown(bs: seq<Button>, opts: seq<int>)
    requires |bs| >= 2 * OptionCount && |opts| == OptionCount
    ensures Shown(Labelled(bs, opts)) == Shown(bs)
  {
    LabelledShows(bs, opts);
    assert Shown(Labelled(bs, opts)) == Labelled(bs, opts)[OptionCount..][|bs| - 2 * OptionCount..];
  }

  /** Disabling keeps what the buttons show, so the list stays ready and shows the same options. */
  lemma DisabledKeepsLabels(bs: seq<Button>, opts: seq<int>)
    ensures |Disabled(bs)| == |bs|
    ensures forall k :: 0 <= k < |bs| ==> Disabled(bs)[k].disabled
    ensures forall k :: 0 <= k < |bs| ==> Disabled(bs)[k].text == bs[k].text && Disabled(bs)[k].style == bs[k].style
    ensures ShowsOptions(Disabled(bs), opts) <==> ShowsOptions(bs, opts)
    ensures BlankBeyondFour(Disabled(bs)) <==> BlankBeyondFour(bs)
    ensures Ready(Disabled(bs)) <==> Ready(bs)
  {
  }

  /** A restyle changes the style of one button and nothing else. */
  lemma RestyledKeepsLabels(bs: seq<Button>, k: int, style: ButtonStyle, opts: seq<int>)
    requires 0 <= k < |bs|
    ensures |Restyled(bs, k, style)| == |bs| && Restyled(bs, k, style)[k].style == style
    ensures forall j :: 0 <= j < |bs| ==> Restyled(bs, k, style)[j].text == bs[j].text
    ensures forall j :: 0 <= j < |bs| && j != k ==> Restyled(bs, k, style)[j] == bs[j]
    ensures ShowsOptions(Restyled(bs, k, style), opts) <==> ShowsOptions(bs, opts)
    ensures BlankBeyondFour(Restyled(bs, k, style)) <==> BlankBeyondFour(bs)
    ensures Ready(Restyled(bs, k, style)) <==> Ready(bs)
  {
  }

  /**
   * The list comes in groups of four; it always has at least one group, and every
   * button after the first four is blank.
   */
  predicate Ready(bs: seq<Button>) {
    |bs| >= OptionCount && |bs| % OptionCount == 0 && BlankBeyondFour(bs)
  }

  /**
   * The four buttons one `createOptionsBox` appends are what the screen then shows, all
   * blank, and the list stays in groups of four.
   */
  lemma AppendedAreShown(bs: seq<Button>)
    requires |bs| == 0 || Ready(bs)
    ensures |bs + NewButtons| == |bs| + OptionCount && Shown(bs + NewButtons) == NewButtons
    ensures Ready(bs + NewButtons)
  {
    assert (|bs| + OptionCount) % OptionCount == |bs| % OptionCount;
  }

  /**
   * A restart appends four buttons and then writes the options: the list grows by four,
   * still in groups of four, and the buttons on screen are the four new blank ones.
   */
  lemma RestartLeavesShownBlank(bs: seq<Button>, opts: seq<int>)
    requires Ready(bs) && |opts| == OptionCount
    ensures |Labelled(bs + NewButtons, opts)| == |bs| + OptionCount
    ensures Shown(Labelled(bs + NewButtons, opts)) == NewButtons
  {
    AppendedAreShown(bs);
    LabelledMissesShown(bs + NewButtons, opts);
  }

  /** `Integer.parseInt(clickedButton.getText())`: the number on a labelled button, `None` for a blank one. */
  method ReadButton(bs: seq<Button>, ghost opts: seq<int>, k: int) returns (n: Option<int>)
    requires ShowsOptions(bs, opts) && BlankBeyondFour(bs) && 0 <= k < |bs|
    ensures n == if k < OptionCount then Some(opts[k]) else None
  {
    ParseButton(bs, opts, k);
    n := ParseInt(bs[k].text);
  }

  /** The loop `for (int i = 0; i < 4; i++)` of `generateAnswerOptions`: button `i` shows `opts[i]`, normal and enabled. */
  method WriteOptions(bs: seq<Button>, opts: seq<int>) returns (r: seq<Button>)
    requires |bs| >= OptionCount && |opts| == OptionCount
    ensures r == Labelled(bs, opts)
  {
    r := bs;
    for i := 0 to OptionCount
      invariant |r| == |bs|
      invariant forall k :: 0 <= k < i ==> r[k] == OptionButton(opts[k])
      invariant forall k :: i <= k < |r| ==> r[k] == bs[k]
    {
      r := r[i := OptionButton(opts[i])];
    }
  }

  /** `optionButtons.forEach(button -> button.setDisable(true))`. */
  method DisableAll(bs: seq<Button>) returns (r: seq<Button>)
    ensures r == Disabled(bs)
  {
    r := bs;
    var i := 0;
    while i < |bs|
      invariant 0 <= i <= |bs|
      invariant r == Disabled(bs[..i]) + bs[i..]
    {
      assert bs[..i + 1][..i] == bs[..i];
      r := r[i := r[i].(disabled := true)];
      i := i + 1;
    }
    assert bs[..i] == bs;
  }

  /**
   * The loop of `highlightCorrectAnswer`: the first button, in list order, whose text
   * `Integer.parseInt` reads as `correct` turns green. The correct answer is on one of the
   * first four buttons, so the loop stops there and never parses a blank button.
   */
  method HighlightCorrect(bs: seq<Button>, ghost opts: seq<int>, correct: int) returns (r: seq<Button>)
    requires ShowsOptions(bs, opts) && BlankBeyondFour(bs) && FourOptions(opts, correct)
    ensures r == Restyled(bs, CorrectIndex(opts, correct), CorrectStyle)
  {
    r := bs;
    var i := 0;
    while i < |r|
      invariant 0 <= i <= CorrectIndex(opts, correct)
      invariant r == bs
    {
      ParseButton(bs, opts, i);
      if ParseInt(r[i].text) == Some(correct) {
        r := Restyled(r, i, CorrectStyle);
        break;
      }
      i := i + 1;
    }
  }
}
